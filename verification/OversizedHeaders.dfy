/**
 Two concrete requests at the edge of the limit: a creation of type UNDEFINED whose plan
 succeeds and whose continuation does not fit, and a request without items whose key is too
 large for the planner but not for the linear chunker.
 */
module OversizedHeaders {
  import opened Basics
  import opened Wire
  import opened Errors
  import opened Messages
  import opened Chunker
  import opened Batching
  import opened PlanItems
  import opened PlanTheorems
  import opened Continuations
  import opened Creations
  import opened Meaning
  import opened Sender
  import opened LargeRequests

  // ---------- a creation of type UNDEFINED ----------

  /** A value of this length fills a create request of type UNDEFINED, with the hint reserved, to the last byte. */
  const FULL: uint32 := MAX_RPC_SIZE - 44

  function Untyped(values: seq<Value>): Request {
    CreateContainer(SMALL_KEY, 0, None, None, Lists([], values, [], []))
  }

  function TwoUntyped(): Request {
    Untyped([Large(FULL, 1), Large(FULL, 1)])
  }

  lemma FullWidth()
    ensures Width(FULL, 4)
  {
    WideVarint(FULL);
    WideVarint(FULL + 10);
    WideVarint(FULL + 19);
  }

  lemma WideVarint(n: nat)
    requires 2097152 <= n < 268435456
    ensures |Varint(n)| == 4
  {
    assert |Varint(n / 128 / 128 / 128)| == 1;
    assert |Varint(n / 128 / 128)| == 2;
    assert |Varint(n / 128)| == 3;
  }

  lemma UntypedItems(values: seq<Value>)
    ensures ItemsOf(Untyped(values)) == Success(ValueItems(values))
    ensures Cleared(Untyped(values)) == Untyped([]) && !Positional(Untyped(values)) && !ReversesChunks(Untyped(values))
    ensures WithSharedTtl(Untyped(values)) == Untyped(values)
  {
    if values == [] {
      assert ValueItems(values) == [];
    }
  }

  lemma UntypedHeader(values: seq<Value>)
    ensures HeaderSize(Reserve(Untyped(values), true)) == 20
  {
    SmallKeySize();
    CreateHeaderSize(Reserve(Untyped(values), true));
    assert |Varint(18)| == 1;
    hide HeaderSize, EncodeKey;
  }

  lemma UntypedSizes()
    ensures HeaderSize(Reserve(Untyped([]), true)) == 20 && ItemSize(ValueItem(Large(FULL, 1))) == MAX_RPC_SIZE - 20
  {
    hide HeaderSize, Large, Width;
    UntypedHeader([]);
    FullWidth();
    LargeSize(FULL, 1, 4);
  }

  /** The chunk of one such value is exactly as large as the limit allows. */
  lemma FullChunk()
    ensures ByteSize(Reserve(Untyped([Large(FULL, 1)]), true)) == MAX_RPC_SIZE
  {
    var v := Large(FULL, 1);
    var r := Reserve(Untyped([v]), true);
    ByteSizeSplits(r);
    UntypedHeader([v]);
    FullWidth();
    LargeSize(FULL, 1, 4);
    assert r.lists == Lists([], [v], [], []);
    assert ItemsSize(r) == BodySizes(ValueBodies([v]));
    hide Large, EncodeValue, ByteSize, HeaderSize, Width;
    assert ValueBodies([v]) == [] + [EncodeValue(v)];
    BodySizesPush([], EncodeValue(v));
  }

  lemma TwoUntypedItems()
    ensures ItemsOf(TwoUntyped()) == Success([ValueItem(Large(FULL, 1)), ValueItem(Large(FULL, 1))])
    ensures Cleared(TwoUntyped()) == Untyped([]) && !Positional(TwoUntyped()) && !ReversesChunks(TwoUntyped())
    ensures WithSharedTtl(TwoUntyped()) == TwoUntyped() && TwoUntyped().CreateContainer? && TwoUntyped().kind == 0
  {
    hide Large;
    var v := Large(FULL, 1);
    UntypedItems([v, v]);
    assert ValueItems([v, v]) == [ValueItem(v), ValueItem(v)];
  }

  lemma SecondChunk(chunk: Request)
    requires ItemsOf(chunk) == Success([ValueItem(Large(FULL, 1))]) && Cleared(chunk) == Untyped([])
    ensures chunk == Untyped([Large(FULL, 1)])
  {
    var v := Large(FULL, 1);
    UntypedItems([v]);
    hide Large, ItemsOf;
    assert ValueItems([v]) == [ValueItem(v)];
    SameItemsSameRequest(chunk, Untyped([v]));
  }

  /**
   Creating a container of type UNDEFINED from two values: the plan succeeds, but the continuation
   is two bytes too large, and the creation ends with the size error before the first RPC.
   */
  lemma UntypedCreationRefused()
    ensures PlanOf(TwoUntyped(), true).Success? && |Chunks(TwoUntyped(), true)| == 2
    ensures var chunk := Chunks(TwoUntyped(), true)[1].request;
            chunk.CreateContainer? && ByteSize(Continuation(chunk, Some(FULL_HINT))) == MAX_RPC_SIZE + 2
    ensures TwoUntyped().CreateContainer? && CreateOutcome(TwoUntyped(), [], Raised(RequestTooLarge))
  {
    hide *;
    TwoUntypedItems();
    UntypedSizes();
    var request, v := TwoUntyped(), ValueItem(Large(FULL, 1));
    LimitIs();
    TwoChunks(request, true, v, v);
    var chunks := Chunks(request, true);
    PlanReversal(request, true);
    ChunksCoverExactly(request, true, 1);
    CreatesAreUnshifted(Untyped([]), Offset(chunks, 1));
    SecondChunk(chunks[1].request);
    FullChunk();
    NothingDropped(chunks[1].request);
    ContinuationSize(chunks[1].request);
    Refused(request, PlanOf(request, true).value);
  }

  lemma LimitIs()
    ensures MAX_RPC_SIZE > 40 && Untyped([]).CreateContainer?
  {
  }

  lemma NothingDropped(chunk: Request)
    requires chunk == Untyped([Large(FULL, 1)])
    ensures chunk.CreateContainer? && DroppedSize(chunk) == 0 && chunk.kind == 0
  {
  }

  lemma Refused(request: Request, plan: seq<Planned>)
    requires request.CreateContainer? && WithSharedTtl(request) == request && PlanOf(request, true) == Success(plan)
    requires |plan| == 2 && plan[1].request.CreateContainer?
    requires ByteSize(Continuation(plan[1].request, Some(FULL_HINT))) > MAX_RPC_SIZE
    ensures CreateOutcome(request, [], Raised(RequestTooLarge))
  {
    hide PlanOf, ByteSize, Continuation, WithSharedTtl;
    ContinuationOfCreate(plan[1].request, Some(FULL_HINT));
  }

  // ---------- a key over the limit ----------

  /** Nothing to add, under a key of as many bytes as a whole request may have. */
  function OnlyKey(): Request {
    AddTo(Key(Payload(Filled(MAX_RPC_SIZE, 7), MAX_RPC_SIZE), None, None, Some(0)), Some(LIST), None, None, NO_ITEMS)
  }

  lemma BodyIsShorter(num: nat, body: Bytes, rest: seq<Field>)
    requires 1 <= num <= 15
    ensures |Encode([Delimited(num, body)] + rest)| > |body|
  {
    EncodeAppend([Delimited(num, body)], rest);
    EncodeOne(Delimited(num, body));
  }

  lemma KeyIsLonger(k: Key)
    requires k.payload.bytes != []
    ensures |EncodeKey(k)| > |k.payload.bytes|
  {
    var payload := EncodePayload(k.payload);
    BodyIsShorter(1, k.payload.bytes, Implicit(2, k.payload.size));
    var rest := OptionalMessage(2, CompressionBody(k.compression)) + OptionalMessage(3, HintBody(k.hint))
                + Optional(4, k.clientId);
    BodyIsShorter(1, payload, rest);
    assert KeyBody(k) + OptionalMessage(3, HintBody(k.hint)) + Optional(4, k.clientId)
           == [Delimited(1, payload)] + rest;
  }

  lemma HeaderIsLonger(r: Request)
    requires r.AddTo? && r.key.payload.bytes != []
    ensures ByteSize(r) > |r.key.payload.bytes|
  {
    hide EncodeKey;
    KeyIsLonger(r.key);
    var rest := Optional(2, r.addKind) + Optional(3, r.ttl) + Optional(4, r.pos) + ItemFields(r);
    BodyIsShorter(1, EncodeKey(r.key), rest);
    assert HeaderFields(r) + ItemFields(r) == [Delimited(1, EncodeKey(r.key))] + rest;
  }

  lemma OnlyKeyItems()
    ensures ItemsOf(OnlyKey()) == Success([]) && !Positional(OnlyKey())
    ensures Reserve(Cleared(OnlyKey()), false) == OnlyKey() && OnlyKey().AddTo?
    ensures |OnlyKey().key.payload.bytes| == MAX_RPC_SIZE > 0
  {
  }

  /** The planner refuses the request, and the linear chunker returns its one empty chunk. */
  lemma LinearMissesHeader()
    ensures PlanOf(OnlyKey(), false) == Failure(RequestTooLarge)
    ensures var base := HeaderSize(OnlyKey());
            !TooLarge(base, [], ItemSize) && LinearChunks(base, [], ItemSize) == [[]]
  {
    hide *;
    OnlyKeyItems();
    HeaderIsLonger(OnlyKey());
    LinearIs(HeaderSize(OnlyKey()), []);
    HeaderRefused(OnlyKey());
  }

  lemma HeaderRefused(request: Request)
    requires ItemsOf(request).Success? && ByteSize(Reserve(Cleared(request), false)) > MAX_RPC_SIZE
    ensures PlanOf(request, false) == Failure(RequestTooLarge)
  {
    hide ByteSize, Reserve, Cleared, ItemsOf;
  }
}
