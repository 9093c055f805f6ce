/** What a successful plan guarantees about the chunks it returns. */
module PlanTheorems {
  import opened Basics
  import opened Wire
  import opened Errors
  import opened Messages
  import opened Greedy
  import opened Chunker
  import opened Batching
  import opened PlanItems

  /** Items in the first i chunks. */
  function Offset(chunks: seq<Planned>, i: nat): nat
    requires i <= |chunks|
  {
    if i == 0 then 0 else chunks[0].count + Offset(chunks[1..], i - 1)
  }

  /** The chunks in item order, undoing the reversal for "insert after". */
  function InOrder(request: Request, chunks: seq<Planned>): seq<Planned> {
    if ReversesChunks(request) then Reverse(chunks) else chunks
  }

  /** The plan with any reversal undone. */
  function Chunks(request: Request, creation: bool): (chunks: seq<Planned>)
    requires PlanOf(request, creation).Success?
    ensures |chunks| == |PlanOf(request, creation).value|
  {
    InOrder(request, PlanOf(request, creation).value)
  }

  lemma ReverseTwice<T>(xs: seq<T>)
    ensures Reverse(Reverse(xs)) == xs
  {
  }

  /** The parts a successful plan is put together from. */
  ghost predicate PlansAs(request: Request, creation: bool, items: seq<Item>, base: Request, reserve: Request) {
    && ItemsOf(request) == Success(items) && base == Cleared(request) && reserve == Reserve(base, creation)
    && WellShaped(base, items) && ByteSize(reserve) <= MAX_RPC_SIZE
    && (items != [] ==> Cuttable(base, reserve, items))
  }

  lemma ReserveKeeps(base: Request, creation: bool, items: seq<Item>)
    requires IsHeader(base) && AcceptsAll(base, items)
    ensures var reserve := Reserve(base, creation);
            IsHeader(reserve) && AcceptsAll(reserve, items)
            && forall e: nat :: Overflows(reserve, e) == Overflows(base, e)
  {
  }

  lemma PlanParts(request: Request, creation: bool) returns (items: seq<Item>, base: Request, reserve: Request)
    requires PlanOf(request, creation).Success?
    ensures PlansAs(request, creation, items, base, reserve)
    ensures ItemsOf(request) == Success(items) && base == Cleared(request) && IsHeader(base)
    ensures reserve == Reserve(base, creation) && ByteSize(reserve) <= MAX_RPC_SIZE && WellShaped(base, items)
    ensures items != [] ==> Cuttable(base, reserve, items)
    ensures Chunks(request, creation)
            == if items == [] then [Planned(base, 0)] else GreedyChunks(base, reserve, items)
  {
    items, base := ItemsOf(request).value, Cleared(request);
    reserve := Reserve(base, creation);
    ItemsWellShaped(request);
    ReserveKeeps(base, creation, items);
    PreflightFeasible(reserve, items);
    var chunks := if items == [] then [Planned(base, 0)] else GreedyChunks(base, reserve, items);
    ReverseTwice(chunks);
    assert PlanOf(request, creation).value == if ReversesChunks(request) then Reverse(chunks) else chunks;
  }

  /** Chunk i of a covering cutting holds the items between its two cuts. */
  lemma {:induction false} ChunkAt(base: Request, items: seq<Item>, j: Job, s: nat, cuts: seq<nat>, i: nat)
    requires AcceptsAll(base, items) && s <= |items|
    requires j.Valid() && |j.sizes| == |items| && j.Covers(s, cuts)
    ensures |ChunksOf(base, items, s, cuts)| == |cuts|
    ensures i <= |cuts| ==> s + Offset(ChunksOf(base, items, s, cuts), i) == StartOf(s, cuts, i)
    ensures i < |cuts| ==>
              var start := StartOf(s, cuts, i);
              start < cuts[i] <= |items|
              && ChunksOf(base, items, s, cuts)[i]
                 == Planned(AppendAll(Shifted(base, start), items[start..cuts[i]]), cuts[i] - start)
    decreases |cuts|
  {
    if cuts != [] {
      ChunkAt(base, items, j, cuts[0], cuts[1..], if i == 0 then 0 else i - 1);
      assert ChunksOf(base, items, s, cuts)[1..] == ChunksOf(base, items, cuts[0], cuts[1..]);
    }
  }

  /** The facts about chunk i that the theorems below restate one by one. */
  lemma GreedyChunkAt(base: Request, reserve: Request, items: seq<Item>, i: nat)
    requires Cuttable(base, reserve, items) && items != []
    ensures var chunks := GreedyChunks(base, reserve, items);
            && chunks != []
            && Offset(chunks, |chunks|) == |items|
            && (i <= |chunks| ==> Offset(chunks, i) <= |items|)
            && (i < |chunks| ==>
                  var s := Offset(chunks, i);
                  var e := s + chunks[i].count;
                  && s < e <= |items|
                  && AcceptsAll(Shifted(base, s), items[s..e])
                  && chunks[i].request == AppendAll(Shifted(base, s), items[s..e])
                  && JobOf(reserve, items).Fits(s, e)
                  && (e < |items| ==> !JobOf(reserve, items).Fits(s, e + 1)))
  {
    hide *;
    CuttableMeans(base, reserve, items);
    var j := JobOf(reserve, items);
    var cuts := j.Ends(0);
    EndsStep(j, 0);
    EndsAreGreedy(j, 0);
    ChunkAt(base, items, j, 0, cuts, |cuts|);
    ChunkAt(base, items, j, 0, cuts, i);
    CutAt(j, 0, cuts, |cuts| - 1);
    StartOfCut(cuts, |cuts|);
    if i <= |cuts| {
      StartOfCut(cuts, i);
    }
    if i < |cuts| {
      CutAt(j, 0, cuts, i);
      ShiftedAccepts(base, items, StartOf(0, cuts, i), cuts[i]);
    }
  }

  lemma StartOfCut(cuts: seq<nat>, i: nat)
    requires i <= |cuts|
    ensures StartOf(0, cuts, i) == if i == 0 then 0 else cuts[i - 1]
  {
  }

  lemma ShiftedAccepts(base: Request, items: seq<Item>, s: nat, e: nat)
    requires AcceptsAll(base, items) && s <= e <= |items|
    ensures AcceptsAll(Shifted(base, s), items[s..e])
  {
  }

  lemma ShiftedWellShaped(base: Request, items: seq<Item>, s: nat, e: nat)
    requires IsHeader(base) && WellShaped(base, items) && s <= e <= |items|
    ensures WellShaped(Shifted(base, s), items[s..e]) && IsHeader(Shifted(base, s))
  {
  }

  lemma NoItemsChunk(base: Request)
    requires IsHeader(base)
    ensures Cleared(base) == base == Shifted(base, 0)
  {
  }

  // ---------- exact cover ----------

  /**
   Every chunk holds the next `count` items of the request, whole and in order, under the
   request's own header with the position moved past the items of earlier chunks; together
   they hold every item exactly once. Only a request without items gives an empty chunk.
   */
  lemma ChunksCoverExactly(request: Request, creation: bool, i: nat)
    requires PlanOf(request, creation).Success? && i < |Chunks(request, creation)|
    ensures var chunks := Chunks(request, creation);
            var items := ItemsOf(request).value;
            var s := Offset(chunks, i);
            && s + chunks[i].count <= |items| == Offset(chunks, |chunks|)
            && ItemsOf(chunks[i].request) == Success(items[s..s + chunks[i].count])
            && Cleared(chunks[i].request) == Shifted(Cleared(request), s)
            && (chunks[i].count == 0 ==> items == [] && |chunks| == 1)
  {
    hide *;
    var items, base, reserve := PlanParts(request, creation);
    var chunks := Chunks(request, creation);
    if items == [] {
      SingleOffset(Planned(base, 0));
      NoItemsChunk(base);
      HeaderIsEmpty(base);
    } else {
      GreedyChunkAt(base, reserve, items, i);
      var s := Offset(chunks, i);
      ShiftedWellShaped(base, items, s, s + chunks[i].count);
      BuiltItems(Shifted(base, s), items[s..s + chunks[i].count]);
    }
  }

  lemma SingleOffset(chunk: Planned)
    ensures Offset([chunk], 0) == 0 && Offset([chunk], 1) == chunk.count
  {
    assert Offset([chunk], 1) == chunk.count + Offset([chunk][1..], 0);
  }

  // ---------- size ----------

  lemma WholeOffset(request: Request, creation: bool)
    requires PlanOf(request, creation).Success?
    ensures Chunks(request, creation) != [] && ItemsOf(request).Success?
    ensures Offset(Chunks(request, creation), |Chunks(request, creation)|) == |ItemsOf(request).value|
    ensures |Chunks(request, creation)| == |PlanOf(request, creation).value|
  {
    hide *;
    var items, base, reserve := PlanParts(request, creation);
    if items == [] {
      SingleOffset(Planned(base, 0));
    } else {
      GreedyChunkAt(base, reserve, items, 0);
    }
  }

  /** The reserved hint only makes a header larger. */
  lemma ReserveIsLarger(base: Request, creation: bool)
    ensures HeaderSize(base) <= HeaderSize(Reserve(base, creation))
  {
    if creation {
      var reserve := Reserve(base, true);
      var rest := HeaderRest(base);
      HeaderStartsWithKey(base);
      HeaderStartsWithKey(reserve);
      assert HeaderSize(base) == |Encode([Delimited(1, EncodeKey(base.key))] + rest)|;
      assert HeaderSize(reserve) == |Encode([Delimited(1, EncodeKey(reserve.key))] + rest)|;
      hide HeaderSize, EncodeKey, HeaderRest, Encode;
      KeyFirst(base.key, rest);
      KeyFirst(reserve.key, rest);
      ReservedKeyIsLargest(base.key, base.key.hint);
      VarintMonotone(|EncodeKey(base.key)|, |EncodeKey(reserve.key)|);
    }
  }

  function HeaderRest(r: Request): seq<Field> {
    match r
    case CreateContainer(_, kind, ttl, lock, _) =>
      Implicit(2, kind) + Optional(3, ttl) + OptionalMessage(4, LockBody(lock))
    case AddTo(_, kind, ttl, pos, _) => Optional(2, kind) + Optional(3, ttl) + Optional(4, pos)
    case AddToVal(_, ttl, isBefore, pivot, _) =>
      Optional(2, ttl) + Implicit(3, Bool(isBefore)) + [Delimited(4, EncodeValue(pivot))]
    case RemoveFrom(_, kind, _, _) => Optional(2, kind)
  }

  lemma HeaderStartsWithKey(r: Request)
    ensures HeaderFields(r) == [Delimited(1, EncodeKey(r.key))] + HeaderRest(r)
  {
    var key := [Delimited(1, EncodeKey(r.key))];
    match r
    case CreateContainer(_, kind, ttl, lock, _) =>
      Regroup(key, Implicit(2, kind), Optional(3, ttl), OptionalMessage(4, LockBody(lock)));
    case AddTo(_, kind, ttl, pos, _) =>
      Regroup(key, Optional(2, kind), Optional(3, ttl), Optional(4, pos));
    case AddToVal(_, ttl, isBefore, pivot, _) =>
      Regroup(key, Optional(2, ttl), Implicit(3, Bool(isBefore)), [Delimited(4, EncodeValue(pivot))]);
    case RemoveFrom(_, kind, _, _) =>
  }

  lemma Regroup<T>(a: seq<T>, b: seq<T>, c: seq<T>, d: seq<T>)
    ensures a + b + c + d == a + (b + c + d)
  {
  }

  lemma KeyFirst(k: Key, rest: seq<Field>)
    ensures |Encode([Delimited(1, EncodeKey(k))] + rest)| == DelimitedSize(|EncodeKey(k)|) + |Encode(rest)|
  {
    EncodeAppend([Delimited(1, EncodeKey(k))], rest);
    EncodeOne(Delimited(1, EncodeKey(k)));
  }

  lemma ShiftedReserve(base: Request, creation: bool, s: nat)
    ensures Shifted(Reserve(base, creation), s) == Reserve(Shifted(base, s), creation)
  {
  }

  lemma BuiltIsSmaller(base: Request, creation: bool, items: seq<Item>, s: nat, e: nat)
    requires s < e <= |items| && IsHeader(base)
    requires Cuttable(base, Reserve(base, creation), items)
    requires JobOf(Reserve(base, creation), items).Fits(s, e)
    ensures AcceptsAll(Shifted(base, s), items[s..e])
    ensures ByteSize(AppendAll(Shifted(base, s), items[s..e])) <= MAX_RPC_SIZE
  {
    var j := JobOf(Reserve(base, creation), items);
    var h := Shifted(base, s);
    ShiftedAccepts(base, items, s, e);
    assert ItemsSize(h) == 0;
    assert j.head[s] == HeaderSize(Shifted(Reserve(base, creation), s));
    hide *;
    ShiftedReserve(base, creation, s);
    ReserveIsLarger(h, creation);
    FilledSize(h, items[s..e]);
    SizesSlice(items, ItemSize, s, e);
    LoadIs(j, s, e);
    JobSizes(Reserve(base, creation), items);
  }

  lemma LoadIs(j: Job, s: nat, e: nat)
    requires j.Valid() && s < e <= |j.sizes|
    ensures j.Load(s, e) == j.head[s] + Sum(j.sizes[s..e])
    ensures j.Fits(s, e) <==> j.Load(s, e) <= j.limit
  {
  }

  lemma JobSizes(header: Request, items: seq<Item>)
    ensures JobOf(header, items).sizes == SizesOf(items, ItemSize) && JobOf(header, items).limit == MAX_RPC_SIZE
  {
  }

  lemma EmptyIsSmaller(base: Request, creation: bool)
    requires IsHeader(base)
    ensures ByteSize(base) <= ByteSize(Reserve(base, creation))
  {
    var reserve := Reserve(base, creation);
    assert ItemsSize(base) == ItemsSize(reserve) == 0;
    hide *;
    ReserveIsLarger(base, creation);
    ByteSizeSplits(base);
    ByteSizeSplits(reserve);
  }

  /** Once a plan succeeds every chunk passes the size check made before each RPC. */
  lemma ChunksFit(request: Request, creation: bool, i: nat)
    requires PlanOf(request, creation).Success? && i < |Chunks(request, creation)|
    ensures ByteSize(Chunks(request, creation)[i].request) <= MAX_RPC_SIZE
  {
    hide *;
    var items, base, reserve := PlanParts(request, creation);
    if items == [] {
      EmptyIsSmaller(base, creation);
    } else {
      GreedyChunkAt(base, reserve, items, i);
      var chunks := GreedyChunks(base, reserve, items);
      BuiltIsSmaller(base, creation, items, Offset(chunks, i), Offset(chunks, i) + chunks[i].count);
    }
  }

  // ---------- acceptance ----------

  /** A request of item k alone, with the header the plan reserves, is within the limit. */
  predicate FitsAlone(reserve: Request, items: seq<Item>, k: nat)
    requires k < |items| && AcceptsAll(reserve, items)
  {
    Overflows(reserve, k + 1) || ByteSize(Build(reserve, items, k, k + 1).value) <= MAX_RPC_SIZE
  }

  ghost predicate AllFitAlone(request: Request, creation: bool)
    requires ItemsOf(request).Success?
  {
    ItemsAccepted(request);
    var items, reserve := ItemsOf(request).value, Reserve(Cleared(request), creation);
    forall k :: 0 <= k < |items| ==> FitsAlone(reserve, items, k)
  }

  lemma AloneMeansPasses(reserve: Request, items: seq<Item>, k: nat)
    requires k < |items| && IsHeader(reserve) && AcceptsAll(reserve, items)
    ensures FitsAlone(reserve, items, k) && !Overflows(reserve, k + 1) <==> ItemPasses(reserve, items, k)
  {
    if !Overflows(reserve, k + 1) {
      BuildSize(reserve, items, k, k + 1);
      hide ByteSize, AppendAll, Shifted, Overflows;
    }
  }

  /**
   When every item and the header fit, the plan fails exactly when the position of the last
   inserted item would leave uint32: pos + n > 0xFFFFFFFF for a position that is not the sentinel.
   */
  lemma PositionTest(request: Request, creation: bool)
    requires ItemsOf(request).Success? && AllFitAlone(request, creation)
    requires ByteSize(Reserve(Cleared(request), creation)) <= MAX_RPC_SIZE
    ensures var n := |ItemsOf(request).value|;
            PlanOf(request, creation).Failure? <==> n > 0 && Positional(request) && request.pos.value + n > UINT32_MAX
    ensures PlanOf(request, creation).Failure? ==> PlanOf(request, creation).error == PositionOverflow
  {
    hide *;
    PreflightDecides(request, creation);
    var items, reserve := ItemsOf(request).value, Reserve(Cleared(request), creation);
    ItemsAccepted(request);
    PositionKept(request, creation, items);
    forall k | 0 <= k < |items| && !Overflows(reserve, k + 1)
      ensures ItemPasses(reserve, items, k)
    {
      AloneAt(request, creation, k);
      AloneMeansPasses(reserve, items, k);
    }
    PreflightPosition(reserve, items, 0);
  }

  lemma AloneAt(request: Request, creation: bool, k: nat)
    requires ItemsOf(request).Success? && AllFitAlone(request, creation) && k < |ItemsOf(request).value|
    ensures AcceptsAll(Reserve(Cleared(request), creation), ItemsOf(request).value)
    ensures FitsAlone(Reserve(Cleared(request), creation), ItemsOf(request).value, k)
  {
    hide ItemsOf, FitsAlone, Reserve, Cleared, AcceptsAll;
    PreflightParts(request, creation);
  }

  /** The parts of the preflight: header and items are compatible. */
  lemma PreflightParts(request: Request, creation: bool)
    requires ItemsOf(request).Success?
    ensures AcceptsAll(Reserve(Cleared(request), creation), ItemsOf(request).value)
    ensures IsHeader(Reserve(Cleared(request), creation))
  {
    ItemsAccepted(request);
    ReserveKeeps(Cleared(request), creation, ItemsOf(request).value);
  }

  lemma PositionKept(request: Request, creation: bool, items: seq<Item>)
    requires ItemsOf(request) == Success(items)
    ensures var reserve := Reserve(Cleared(request), creation);
            && IsHeader(reserve) && AcceptsAll(reserve, items)
            && (Overflows(reserve, |items|) <==> Positional(request) && request.pos.value + |items| > UINT32_MAX)
  {
    PreflightParts(request, creation);
    hide ItemsOf, AcceptsAll, IsHeader;
  }

  /** With a header that fits, planning fails exactly as the preflight does. */
  lemma PreflightDecides(request: Request, creation: bool)
    requires ItemsOf(request).Success? && ByteSize(Reserve(Cleared(request), creation)) <= MAX_RPC_SIZE
    ensures AcceptsAll(Reserve(Cleared(request), creation), ItemsOf(request).value)
    ensures match Preflight(Reserve(Cleared(request), creation), ItemsOf(request).value, 0)
            case None => PlanOf(request, creation).Success?
            case Some(e) => PlanOf(request, creation) == Failure(e)
  {
    PreflightParts(request, creation);
    hide ByteSize, Preflight, ItemsOf, Reserve, Cleared, AcceptsAll, IsHeader, GreedyChunks;
  }

  /** A plan exists exactly when header, items and position all pass. */
  lemma PlanAccepts(request: Request, creation: bool)
    ensures PlanOf(request, creation).Success? <==>
              && ItemsOf(request).Success?
              && ByteSize(Reserve(Cleared(request), creation)) <= MAX_RPC_SIZE
              && AllFitAlone(request, creation)
              && !(ItemsOf(request).value != [] && Overflows(request, |ItemsOf(request).value|))
  {
    if ItemsOf(request).Failure? || ByteSize(Reserve(Cleared(request), creation)) > MAX_RPC_SIZE {
      return;
    }
    var items, base := ItemsOf(request).value, Cleared(request);
    var reserve := Reserve(base, creation);
    ItemsAccepted(request);
    ReserveKeeps(base, creation, items);
    assert Overflows(reserve, |items|) == Overflows(request, |items|);
    assert PlanOf(request, creation).Success? <==> Preflight(reserve, items, 0).None?;
    assert AllFitAlone(request, creation) <==> forall k :: 0 <= k < |items| ==> FitsAlone(reserve, items, k);
    hide *;
    PreflightAccepts(reserve, items);
  }

  /** A plan that fails does so for the size or the shape of its input, and for nothing else. */
  lemma PlanErrors(request: Request, creation: bool)
    requires PlanOf(request, creation).Failure?
    ensures IsSizeOrShapeError(PlanOf(request, creation).error)
  {
    if ItemsOf(request).Success? {
      PreflightParts(request, creation);
      PreflightErrors(Reserve(Cleared(request), creation), ItemsOf(request).value, 0);
      hide ByteSize, Reserve, Cleared, Preflight;
    }
  }

  lemma {:induction false} PreflightErrors(header: Request, items: seq<Item>, i: nat)
    requires AcceptsAll(header, items) && i <= |items|
    ensures var e := Preflight(header, items, i); e.Some? ==> IsSizeOrShapeError(e.value)
    decreases |items| - i
  {
    if i < |items| {
      PreflightErrors(header, items, i + 1);
    }
    hide ByteSize;
  }

  lemma PreflightAccepts(reserve: Request, items: seq<Item>)
    requires IsHeader(reserve) && AcceptsAll(reserve, items)
    ensures Preflight(reserve, items, 0).None? <==>
              && (forall k :: 0 <= k < |items| ==> FitsAlone(reserve, items, k))
              && !(items != [] && Overflows(reserve, |items|))
  {
    hide *;
    PreflightExact(reserve, items, 0);
    forall k | 0 <= k < |items|
      ensures ItemPasses(reserve, items, k) <==> FitsAlone(reserve, items, k) && !Overflows(reserve, k + 1)
      ensures Overflows(reserve, k + 1) ==> Overflows(reserve, |items|)
    {
      AloneMeansPasses(reserve, items, k);
      PreflightStep(reserve, items, k);
    }
    if items != [] {
      var last := |items| - 1;
      AloneMeansPasses(reserve, items, last);
      assert last + 1 == |items|;
      assert ItemPasses(reserve, items, last) ==> !Overflows(reserve, |items|);
    }
  }

  // ---------- positions ----------

  /** Positions advance by the items already inserted and never reach the append sentinel. */
  lemma ChunkPosition(request: Request, creation: bool, i: nat)
    requires PlanOf(request, creation).Success? && i < |Chunks(request, creation)|
    ensures var chunk := Chunks(request, creation)[i].request;
            if Positional(request) then
              && chunk.AddTo? && chunk.pos == Some(request.pos.value + Offset(Chunks(request, creation), i))
              && chunk.pos.value < UINT32_MAX
            else Cleared(chunk) == Cleared(request)
  {
    hide *;
    ChunksCoverExactly(request, creation, i);
    PlanAccepts(request, creation);
    WholeOffset(request, creation);
    NotAtSentinel(request);
    ShiftedPosition(request, Chunks(request, creation)[i].request, Offset(Chunks(request, creation), i),
                    |ItemsOf(request).value|);
  }

  /** A position of its own is not the sentinel, so without items nothing overflows. */
  lemma NotAtSentinel(request: Request)
    ensures !Overflows(request, 0)
    ensures Positional(request) ==> request.AddTo? && request.pos.Some? && request.pos.value < UINT32_MAX
  {
  }

  lemma ShiftedPosition(request: Request, chunk: Request, s: nat, n: nat)
    requires Cleared(chunk) == Shifted(Cleared(request), s) && s <= n && !Overflows(request, n)
    ensures if Positional(request) then
              chunk.AddTo? && chunk.pos == Some(request.pos.value + s) && request.pos.value + n <= UINT32_MAX
            else Cleared(chunk) == Cleared(request)
    ensures Positional(request) ==> request.AddTo? && request.pos.Some?
  {
    assert Cleared(request).AddTo? ==> Cleared(request).pos == request.pos;
    assert Cleared(chunk).AddTo? ==> Cleared(chunk).pos == chunk.pos;
  }

  // ---------- maximality and optimality ----------

  /** No chunk but the last could have held one more item. */
  lemma ChunksAreMaximal(request: Request, creation: bool, i: nat)
    requires PlanOf(request, creation).Success? && i < |Chunks(request, creation)| - 1
    ensures var items := ItemsOf(request).value;
            var chunks := Chunks(request, creation);
            var s := Offset(chunks, i);
            OneMoreOverflows(Reserve(Cleared(request), creation), items, s, s + chunks[i].count)
  {
    hide *;
    var items, base, reserve := PlanParts(request, creation);
    assert items != [];
    GreedyChunkAt(base, reserve, items, i);
    GreedyChunkAt(base, reserve, items, i + 1);
    var chunks := GreedyChunks(base, reserve, items);
    var s, e := Offset(chunks, i), Offset(chunks, i) + chunks[i].count;
    OffsetStep(chunks, i);
    UnfitOverflows(base, reserve, items, s, e);
  }

  /** The request for items s..e with item e added is over the limit. */
  ghost predicate OneMoreOverflows(header: Request, items: seq<Item>, s: nat, e: nat) {
    && AcceptsAll(header, items) && s <= e < |items|
    && Build(header, items, s, e + 1).Success?
    && ByteSize(Build(header, items, s, e + 1).value) > MAX_RPC_SIZE
  }

  lemma UnfitOverflows(base: Request, reserve: Request, items: seq<Item>, s: nat, e: nat)
    requires Cuttable(base, reserve, items) && s <= e < |items|
    requires !JobOf(reserve, items).Fits(s, e + 1)
    ensures OneMoreOverflows(reserve, items, s, e)
  {
    hide JobOf, ByteSize, Build, AcceptsAll, Overflows, IsHeader;
    OverflowsLess(reserve, e + 1, |items|);
    BuildSize(reserve, items, s, e + 1);
    BuildSucceeds(reserve, items, s, e + 1);
    LoadIs(JobOf(reserve, items), s, e + 1);
    JobSizes(reserve, items);
  }

  lemma {:induction false} OffsetStep(chunks: seq<Planned>, i: nat)
    requires i < |chunks|
    ensures Offset(chunks, i + 1) == Offset(chunks, i) + chunks[i].count
    decreases i
  {
    if i > 0 {
      OffsetStep(chunks[1..], i - 1);
    }
  }

  /** Any way to cut the items into consecutive requests, with this header, that are all within the limit. */
  ghost predicate FittingPartition(header: Request, items: seq<Item>, s: nat, cuts: seq<nat>)
    requires AcceptsAll(header, items)
    decreases |cuts|
  {
    if cuts == [] then s == |items|
    else
      && s < cuts[0] <= |items|
      && Build(header, items, s, cuts[0]).Success?
      && ByteSize(Build(header, items, s, cuts[0]).value) <= MAX_RPC_SIZE
      && FittingPartition(header, items, cuts[0], cuts[1..])
  }

  lemma {:induction false} FittingCuts(header: Request, items: seq<Item>, s: nat, cuts: seq<nat>)
    requires IsHeader(header) && AcceptsAll(header, items) && FittingPartition(header, items, s, cuts)
    ensures JobOf(header, items).Covers(s, cuts) && JobOf(header, items).AllFit(s, cuts)
    decreases |cuts|
  {
    if cuts != [] {
      assert !Overflows(header, cuts[0]);
      hide ByteSize, Build, JobOf, Overflows;
      FittingCuts(header, items, cuts[0], cuts[1..]);
      BuildSize(header, items, s, cuts[0]);
      LoadIs(JobOf(header, items), s, cuts[0]);
      JobSizes(header, items);
    }
  }

  /** No cutting of the same items into requests within the limit sends fewer requests. */
  lemma PlanIsOptimal(request: Request, creation: bool, cuts: seq<nat>)
    requires PlanOf(request, creation).Success? && ItemsOf(request).value != []
    requires AcceptsAll(Reserve(Cleared(request), creation), ItemsOf(request).value)
    requires FittingPartition(Reserve(Cleared(request), creation), ItemsOf(request).value, 0, cuts)
    ensures |PlanOf(request, creation).value| <= |cuts|
  {
    hide *;
    var items, base, reserve := PlanParts(request, creation);
    CuttableMeans(base, reserve, items);
    var j := JobOf(reserve, items);
    FittingCuts(reserve, items, 0, cuts);
    JobSteady(reserve, items);
    StaysAhead(j, 0, 0, cuts);
    EndsAreGreedy(j, 0);
    ChunkAt(base, items, j, 0, j.Ends(0), 0);
  }

  /** A request is sent as it is, in one piece, exactly when it is within the limit. */
  lemma FittingRequestIsWhole(request: Request)
    requires PlanOf(request, false).Success? && ItemsOf(request).value != []
    ensures PlanOf(request, false).value == [Planned(request, |ItemsOf(request).value|)]
            <==> ByteSize(request) <= MAX_RPC_SIZE
  {
    hide *;
    var items, base, reserve := PlanParts(request, false);
    if ByteSize(request) <= MAX_RPC_SIZE {
      Rebuilt(request);
      PlanAccepts(request, false);
      OnePartition(request, items);
      PlanIsOptimal(request, false, [|items|]);
      OnlyChunk(request, items);
    } else if PlanOf(request, false).value == [Planned(request, |items|)] {
      OneIsUnreversed(request);
      ChunksFit(request, false, 0);
    }
  }

  lemma OneIsUnreversed(request: Request)
    requires PlanOf(request, false).Success? && |PlanOf(request, false).value| == 1
    ensures Chunks(request, false) == PlanOf(request, false).value
  {
    hide PlanOf;
  }

  lemma OnePartition(request: Request, items: seq<Item>)
    requires ItemsOf(request) == Success(items) && items != [] && !Overflows(request, |items|)
    requires AcceptsAll(Cleared(request), items) && AppendAll(Cleared(request), items) == request
    requires ByteSize(request) <= MAX_RPC_SIZE
    ensures var header := Reserve(Cleared(request), false);
            AcceptsAll(header, items) && FittingPartition(header, items, 0, [|items|])
  {
    hide *;
    ClearedHeader(request, |items|);
    assert items[0..|items|] == items;
    BuiltWhole(Cleared(request), items);
    PartitionOfOne(Cleared(request), items);
  }

  lemma ClearedHeader(request: Request, n: nat)
    ensures Reserve(Cleared(request), false) == Cleared(request) == Shifted(Cleared(request), 0)
    ensures Overflows(Cleared(request), n) == Overflows(request, n)
  {
  }

  lemma BuiltWhole(header: Request, items: seq<Item>)
    requires AcceptsAll(header, items) && !Overflows(header, |items|) && items[0..|items|] == items
    requires Shifted(header, 0) == header
    ensures Build(header, items, 0, |items|) == Success(AppendAll(header, items))
  {
    hide AppendAll, Overflows, Shifted, AcceptsAll;
  }

  lemma PartitionOfOne(header: Request, items: seq<Item>)
    requires AcceptsAll(header, items) && items != [] && Build(header, items, 0, |items|).Success?
    requires ByteSize(Build(header, items, 0, |items|).value) <= MAX_RPC_SIZE
    ensures FittingPartition(header, items, 0, [|items|])
  {
    hide Build, ByteSize, AcceptsAll;
    assert [|items|][1..] == [];
  }

  lemma OnlyChunk(request: Request, items: seq<Item>)
    requires PlanOf(request, false).Success? && |PlanOf(request, false).value| <= 1
    requires ItemsOf(request) == Success(items) && items != []
    ensures PlanOf(request, false).value == [Planned(request, |items|)]
  {
    hide *;
    var items', base, reserve' := PlanParts(request, false);
    GreedyChunkAt(base, reserve', items, 0);
    OneIsUnreversed(request);
    var chunks := Chunks(request, false);
    assert chunks == [chunks[0]];
    SingleOffset(chunks[0]);
    ChunksCoverExactly(request, false, 0);
    assert items[0..|items|] == items;
    ClearedHeader(request, 0);
    SameItemsSameRequest(chunks[0].request, request);
  }

  // ---------- the linear chunker ----------

  function ItemLists(chunks: seq<Planned>): seq<seq<Item>>
    requires forall chunk <- chunks :: ItemsOf(chunk.request).Success?
  {
    seq(|chunks|, i requires 0 <= i < |chunks| => ItemsOf(chunks[i].request).value)
  }

  /** Without a position to shift, every chunk has the same header. */
  lemma EmptyItemLists(chunks: seq<Planned>)
    requires |chunks| == 1 && ItemsOf(chunks[0].request) == Success([])
    ensures Flatten(ItemLists(chunks)) == []
  {
    hide ItemsOf;
    assert ItemLists(chunks) == [[]];
  }

  lemma UniformJob(header: Request, items: seq<Item>)
    requires !Positional(header)
    ensures JobOf(header, items) == LinearJob(HeaderSize(header), SizesOf(items, ItemSize))
  {
    assert JobOf(header, items).head == seq(|items|, _ => HeaderSize(header));
  }

  lemma {:induction false} SliceAt<T>(items: seq<T>, j: Job, s: nat, cuts: seq<nat>, i: nat)
    requires j.Valid() && |j.sizes| == |items| && s <= |items| && j.Covers(s, cuts) && i < |cuts|
    ensures i < |Slices(items, s, cuts)| && s <= StartOf(s, cuts, i) <= cuts[i] <= |items|
    ensures Slices(items, s, cuts)[i] == items[StartOf(s, cuts, i)..cuts[i]]
    decreases |cuts|
  {
    if i > 0 {
      SliceAt(items, j, cuts[0], cuts[1..], i - 1);
    }
  }

  /**
   For a request without position, the binary-search planner and the linear chunker, run on the
   reserved header and the tag-length-body sizes, cut at the same places; and they reject the
   same requests, but for the one without items whose header alone is over the limit: the
   linear chunker does not look at it.
   */
  lemma PlanRefinesLinear(request: Request, creation: bool)
    requires ItemsOf(request).Success? && !Positional(request)
    ensures var items, reserve := ItemsOf(request).value, Reserve(Cleared(request), creation);
            var base := HeaderSize(reserve);
            && (PlanOf(request, creation).Failure? <==>
                  TooLarge(base, items, ItemSize) || (items == [] && ByteSize(reserve) > MAX_RPC_SIZE))
            && (PlanOf(request, creation).Success? ==>
                  && (forall chunk <- Chunks(request, creation) :: ItemsOf(chunk.request).Success?)
                  && ItemLists(Chunks(request, creation)) == LinearChunks(base, items, ItemSize))
  {
    hide *;
    var items, reserve := ItemsOf(request).value, Reserve(Cleared(request), creation);
    LinearIs(HeaderSize(reserve), items);
    if items == [] {
      EmptyAccepts(request, creation);
    } else {
      LinearAccepts(request, creation);
    }
    if PlanOf(request, creation).Success? {
      if items == [] {
        EmptyCuts(request, creation);
      } else {
        LinearCuts(request, creation);
      }
    }
  }

  lemma LinearIs(base: nat, items: seq<Item>)
    ensures items == [] ==> !TooLarge(base, items, ItemSize) && LinearChunks(base, items, ItemSize) == [[]]
    ensures items != [] ==>
              LinearChunks(base, items, ItemSize) == Slices(items, 0, LinearJob(base, SizesOf(items, ItemSize)).Ends(0))
  {
  }

  lemma EmptyAccepts(request: Request, creation: bool)
    requires ItemsOf(request) == Success([])
    ensures PlanOf(request, creation).Failure? <==> ByteSize(Reserve(Cleared(request), creation)) > MAX_RPC_SIZE
  {
    PlanAccepts(request, creation);
    PreflightParts(request, creation);
    hide PlanOf, ByteSize, Overflows;
  }

  lemma EmptyCuts(request: Request, creation: bool)
    requires PlanOf(request, creation).Success? && ItemsOf(request) == Success([])
    ensures forall chunk <- Chunks(request, creation) :: ItemsOf(chunk.request).Success?
    ensures ItemLists(Chunks(request, creation)) == [[]]
  {
    hide *;
    var items, base, reserve := PlanParts(request, creation);
    NoItemsChunk(base);
    HeaderIsEmpty(base);
    ItemListsAre(Chunks(request, creation), [[]]);
  }

  lemma LinearAccepts(request: Request, creation: bool)
    requires ItemsOf(request).Success? && ItemsOf(request).value != [] && !Positional(request)
    ensures PlanOf(request, creation).Failure? <==>
              TooLarge(HeaderSize(Reserve(Cleared(request), creation)), ItemsOf(request).value, ItemSize)
  {
    var items, base := ItemsOf(request).value, Cleared(request);
    var reserve := Reserve(base, creation);
    ItemsAccepted(request);
    ReserveKeeps(base, creation, items);
    ByteSizeSplits(reserve);
    assert ItemsSize(reserve) == 0;
    assert !Positional(reserve) && !Overflows(request, |items|);
    assert AllFitAlone(request, creation) <==> forall k :: 0 <= k < |items| ==> FitsAlone(reserve, items, k);
    PlanAccepts(request, creation);
    hide *;
    UniformJob(reserve, items);
    forall k | 0 <= k < |items|
      ensures FitsAlone(reserve, items, k) <==> ItemSize(items[k]) + HeaderSize(reserve) <= MAX_RPC_SIZE
    {
      SingleFits(reserve, items, k);
    }
    TooLargeMeans(HeaderSize(reserve), items, ItemSize);
    assert 0 <= ItemSize(items[0]);
  }

  lemma TooLargeMeans<T>(base: nat, messages: seq<T>, sizeOf: T -> nat)
    ensures !TooLarge(base, messages, sizeOf) <==>
              forall i :: 0 <= i < |messages| ==> sizeOf(messages[i]) + base <= MAX_RPC_SIZE
  {
  }

  lemma SingleFits(reserve: Request, items: seq<Item>, k: nat)
    requires IsHeader(reserve) && AcceptsAll(reserve, items) && !Positional(reserve) && k < |items|
    ensures FitsAlone(reserve, items, k) <==> ItemSize(items[k]) + HeaderSize(reserve) <= MAX_RPC_SIZE
  {
    assert !Overflows(reserve, k + 1);
    BuildSize(reserve, items, k, k + 1);
    assert JobOf(reserve, items).head[k] == HeaderSize(reserve) && JobOf(reserve, items).sizes[k] == ItemSize(items[k]);
    hide JobOf, HeaderSize, ItemSize, ByteSize, Build;
    LoadOne(JobOf(reserve, items), k);
  }

  lemma LinearCuts(request: Request, creation: bool)
    requires PlanOf(request, creation).Success? && ItemsOf(request).value != [] && !Positional(request)
    ensures forall chunk <- Chunks(request, creation) :: ItemsOf(chunk.request).Success?
    ensures ItemLists(Chunks(request, creation))
            == Slices(ItemsOf(request).value, 0,
                      LinearJob(HeaderSize(Reserve(Cleared(request), creation)),
                                SizesOf(ItemsOf(request).value, ItemSize)).Ends(0))
  {
    assert !Positional(Reserve(Cleared(request), creation));
    hide *;
    var items, base, reserve := PlanParts(request, creation);
    CuttableMeans(base, reserve, items);
    UniformJob(reserve, items);
    var chunks := Chunks(request, creation);
    var j := JobOf(reserve, items);
    var cuts := j.Ends(0);
    EndsAreGreedy(j, 0);
    SlicesCover(items, j, 0, cuts);
    ChunkAt(base, items, j, 0, cuts, 0);
    forall i | 0 <= i < |chunks|
      ensures ItemsOf(chunks[i].request) == Success(Slices(items, 0, cuts)[i])
    {
      ChunkAt(base, items, j, 0, cuts, i);
      SliceAt(items, j, 0, cuts, i);
      var s, e := StartOf(0, cuts, i), cuts[i];
      ShiftedWellShaped(base, items, s, e);
      BuiltItems(Shifted(base, s), items[s..e]);
    }
    ItemListsAre(chunks, Slices(items, 0, cuts));
  }

  lemma ItemListsAre(chunks: seq<Planned>, lists: seq<seq<Item>>)
    requires |chunks| == |lists|
    requires forall i :: 0 <= i < |chunks| ==> ItemsOf(chunks[i].request) == Success(lists[i])
    ensures forall chunk <- chunks :: ItemsOf(chunk.request).Success?
    ensures ItemLists(chunks) == lists
  {
    hide ItemsOf;
  }
}
