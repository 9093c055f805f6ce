/** The add requests that continue a creation fit whenever the creation's own plan does. */
module Continuations {
  import opened Basics
  import opened Wire
  import opened Messages
  import opened Chunker
  import opened Batching
  import opened PlanTheorems

  function DroppedSize(chunk: Request): nat
    requires chunk.CreateContainer?
  {
    OptionalSize(chunk.ttl) + OptionalMessageSize(LockBody(chunk.lock))
  }

  /**
   A continuation with a full hint is the create chunk, measured as the plan does with both
   words of the hint reserved, without its ttl and lock; but it always writes the container
   type, which CreateContainerRequest omits when it is zero.
   */
  lemma ContinuationSize(chunk: Request)
    requires chunk.CreateContainer?
    ensures ByteSize(Continuation(chunk, Some(FULL_HINT))) + DroppedSize(chunk)
            == ByteSize(Reserve(chunk, true)) + (if chunk.kind == 0 then 2 else 0)
  {
    var c, r := Continuation(chunk, Some(FULL_HINT)), Reserve(chunk, true);
    assert ItemsSize(c) == ItemsSize(r) && c.key == r.key;
    assert |Varint(0)| == 1;
    ByteSizeSplits(c);
    ByteSizeSplits(r);
    AddHeaderSize(c);
    CreateHeaderSize(r);
    hide ByteSize, HeaderSize, ItemsSize, EncodeKey, DelimitedSize;
  }

  /** Whatever hint the server returns, or none, the continuation is no larger than with the full hint. */
  lemma AnyHintIsSmaller(chunk: Request, hint: Option<KeyHint>)
    requires chunk.CreateContainer?
    ensures ByteSize(Continuation(chunk, hint)) <= ByteSize(Continuation(chunk, Some(FULL_HINT)))
  {
    var c, f := Continuation(chunk, hint), Continuation(chunk, Some(FULL_HINT));
    assert c.key == chunk.key.(hint := c.key.hint) && f.key == chunk.key.(hint := Some(FULL_HINT));
    assert ItemsSize(c) == ItemsSize(f);
    ByteSizeSplits(c);
    ByteSizeSplits(f);
    AddHeaderSize(c);
    AddHeaderSize(f);
    hide ByteSize, HeaderSize, ItemsSize, EncodeKey;
    ReservedKeyIsLargest(chunk.key, c.key.hint);
    VarintMonotone(|EncodeKey(c.key)|, |EncodeKey(f.key)|);
  }

  lemma ReservedBuild(base: Request, items: seq<Item>)
    requires base.CreateContainer? && AcceptsAll(base, items)
    ensures AcceptsAll(Reserve(base, true), items)
    ensures AppendAll(base, items).CreateContainer? && AppendAll(base, items).kind == base.kind
    ensures Reserve(AppendAll(base, items), true) == AppendAll(Reserve(base, true), items)
    decreases |items|
  {
    if items != [] {
      ReservedBuild(base, items[..|items| - 1]);
    }
  }

  lemma ClearedKind(request: Request)
    requires request.CreateContainer?
    ensures Cleared(request).CreateContainer? && Cleared(request).kind == request.kind
  {
  }

  predicate ReservedFits(chunk: Request, kind: nat) {
    chunk.CreateContainer? && chunk.kind == kind && ByteSize(Reserve(chunk, true)) <= MAX_RPC_SIZE
  }

  /** The reserved form of every chunk of a creation plan is within the limit. */
  lemma ReservedChunkFits(request: Request, i: nat)
    requires request.CreateContainer?
    requires PlanOf(request, true).Success? && i < |Chunks(request, true)|
    ensures ReservedFits(Chunks(request, true)[i].request, request.kind)
  {
    hide *;
    ClearedKind(request);
    var items, base, reserve := PlanParts(request, true);
    if items == [] {
      EmptyReserved(base);
    } else {
      GreedyChunkAt(base, reserve, items, i);
      var chunks := GreedyChunks(base, reserve, items);
      var s, e := Offset(chunks, i), Offset(chunks, i) + chunks[i].count;
      FittingReserved(base, items, s, e);
    }
  }

  lemma FittingReserved(base: Request, items: seq<Item>, s: nat, e: nat)
    requires base.CreateContainer? && Cuttable(base, Reserve(base, true), items)
    requires s < e <= |items| && JobOf(Reserve(base, true), items).Fits(s, e)
    ensures AcceptsAll(Shifted(base, s), items[s..e])
    ensures ReservedFits(AppendAll(Shifted(base, s), items[s..e]), base.kind)
  {
    hide *;
    var reserve := Reserve(base, true);
    CuttableMeans(base, reserve, items);
    ShiftedAccepts(base, items, s, e);
    ShiftedAccepts(reserve, items, s, e);
    CreatesAreUnshifted(base, s);
    OverflowsLess(reserve, e, |items|);
    ReservedBuild(base, items[s..e]);
    BuildSucceeds(reserve, items, s, e);
    BuildSize(reserve, items, s, e);
    LoadIs(JobOf(reserve, items), s, e);
    JobSizes(reserve, items);
    ReservedFitsMeans(AppendAll(Shifted(base, s), items[s..e]), base.kind);
  }

  lemma ReservedFitsMeans(chunk: Request, kind: nat)
    ensures ReservedFits(chunk, kind) <==>
              chunk.CreateContainer? && chunk.kind == kind && ByteSize(Reserve(chunk, true)) <= MAX_RPC_SIZE
  {
  }

  lemma CreatesAreUnshifted(base: Request, s: nat)
    requires base.CreateContainer?
    ensures Shifted(base, s) == base && Shifted(Reserve(base, true), s) == Reserve(base, true)
  {
  }

  lemma EmptyReserved(base: Request)
    requires IsHeader(base) && base.CreateContainer? && ByteSize(Reserve(base, true)) <= MAX_RPC_SIZE
    ensures ReservedFits(base, base.kind)
  {
  }

  /** For every container type but UNDEFINED, every continuation of a planned creation fits. */
  lemma ContinuationsFit(request: Request, i: nat, hint: Option<KeyHint>)
    requires request.CreateContainer? && request.kind != 0
    requires PlanOf(request, true).Success? && i < |Chunks(request, true)|
    ensures var chunk := Chunks(request, true)[i].request;
            chunk.CreateContainer? && ByteSize(Continuation(chunk, hint)) <= MAX_RPC_SIZE
  {
    hide *;
    ReservedChunkFits(request, i);
    var chunk := Chunks(request, true)[i].request;
    ReservedFitsMeans(chunk, request.kind);
    ContinuationSize(chunk);
    AnyHintIsSmaller(chunk, hint);
  }

  /**
   For any type: the preflight of continuations, made with the full hint, passes for a chunk
   exactly when the two extra bytes of an UNDEFINED type are covered by the limit or by the
   ttl and lock that a continuation drops; and then every other hint fits as well.
   */
  lemma ContinuationPreflight(request: Request, i: nat, hint: Option<KeyHint>)
    requires request.CreateContainer?
    requires PlanOf(request, true).Success? && i < |Chunks(request, true)|
    ensures var chunk := Chunks(request, true)[i].request;
            chunk.CreateContainer?
            && (ByteSize(Continuation(chunk, Some(FULL_HINT))) <= MAX_RPC_SIZE <==>
                  request.kind != 0 || ByteSize(Reserve(chunk, true)) + 2 <= MAX_RPC_SIZE + DroppedSize(chunk))
            && ByteSize(Continuation(chunk, hint)) <= ByteSize(Continuation(chunk, Some(FULL_HINT)))
  {
    hide *;
    ReservedChunkFits(request, i);
    var chunk := Chunks(request, true)[i].request;
    ReservedFitsMeans(chunk, request.kind);
    ContinuationSize(chunk);
    AnyHintIsSmaller(chunk, hint);
  }
}
