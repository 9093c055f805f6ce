/** Sizes of large values, and requests of two items that do not fit one message together. */
module LargeRequests {
  import opened Basics
  import opened Wire
  import opened Messages
  import opened Greedy
  import opened Chunker
  import opened Batching
  import opened PlanTheorems

  /** A key as `create_key` builds it, with no bytes. */
  const SMALL_KEY := Key(Payload([], 0), None, None, Some(0))

  function Filled(n: nat, b: byte): (bytes: Bytes)
    ensures |bytes| == n
  {
    seq(n, _ => b)
  }

  /** A value as `create_value` builds it, with n equal bytes. */
  function Large(n: uint32, b: byte): Value {
    Value(Payload(Filled(n, b), n), None, None, Some(LockInfo(0, Some(0), None)))
  }

  /** The lengths that occur in the encoding of a large value all take w bytes. */
  predicate Width(n: nat, w: nat) {
    |Varint(n)| == w && |Varint(n + 2 + 2 * w)| == w && |Varint(n + 7 + 3 * w)| == w
  }

  lemma LockSize(v: Value)
    requires v.lock == Some(LockInfo(0, Some(0), None))
    ensures OptionalMessageSize(LockBody(v.lock)) == 4
  {
    EncodeOne(Number(2, 0));
    assert [] + [Number(2, 0)] + [] == [Number(2, 0)];
    assert |Varint(0)| == 1 && |Varint(2)| == 1;
  }

  lemma PayloadSize(p: Payload, w: nat)
    requires p.bytes != [] && p.size == |p.bytes| && |Varint(|p.bytes|)| == w
    ensures |EncodePayload(p)| == |p.bytes| + 2 + 2 * w
  {
    hide Varint;
    var bytes, size := Delimited(1, p.bytes), Number(2, p.size);
    EncodeAppend([bytes], [size]);
    EncodeOne(bytes);
    EncodeOne(size);
  }

  lemma LargeSize(n: uint32, b: byte, w: nat)
    requires n > 0 && Width(n, w)
    ensures |EncodeValue(Large(n, b))| == n + 7 + 3 * w
    ensures DelimitedSize(|EncodeValue(Large(n, b))|) == n + 8 + 4 * w
    ensures ItemSize(ValueItem(Large(n, b))) == n + 8 + 4 * w
  {
    var v := Large(n, b);
    PayloadSize(v.value, w);
    LockSize(v);
    ValueFields(v, |EncodePayload(v.value)|);
    hide EncodeValue, EncodePayload, Varint, Large;
  }

  lemma ValueFields(v: Value, payload: nat)
    requires |EncodePayload(v.value)| == payload && v.compression == None && v.ttl == None
    ensures |EncodeValue(v)| == DelimitedSize(payload) + OptionalMessageSize(LockBody(v.lock))
  {
    hide EncodePayload, LockBody, Varint, DelimitedSize;
    var whole := Delimited(1, EncodePayload(v.value));
    EncodeOne(whole);
    OptionalMessageEncodes(4, LockBody(v.lock));
    assert [whole] + [] + [] == [whole];
    EncodeAppend([whole], OptionalMessage(4, LockBody(v.lock)));
  }

  lemma SmallKeySize()
    ensures |EncodeKey(SMALL_KEY)| == 4
    ensures |EncodeKey(SMALL_KEY.(hint := Some(FULL_HINT)))| == 18
  {
    var inner := Delimited(1, EncodePayload(SMALL_KEY.payload));
    assert EncodePayload(SMALL_KEY.payload) == [];
    EncodeOne(inner);
    assert KeyBody(SMALL_KEY) == [inner] == KeyBody(SMALL_KEY.(hint := Some(FULL_HINT)));
    KeySize(SMALL_KEY);
    KeySize(SMALL_KEY.(hint := Some(FULL_HINT)));
    HintSize(FULL_HINT);
    VarintUint32(UINT32_MAX);
    assert |Varint(0)| == 1 && |Varint(12)| == 1;
  }

  // ---------- two items, two chunks ----------

  lemma TwoEnds(base: nat, a: nat, b: nat)
    requires base + a <= MAX_RPC_SIZE && base + b <= MAX_RPC_SIZE < base + a + b
    ensures LinearJob(base, [a, b]).Ends(0) == [1, 2]
  {
    var j := LinearJob(base, [a, b]);
    assert j.sizes[0..1] == [a] && j.sizes[1..2] == [b] && j.sizes[0..2] == [a] + [b];
    assert Sum([a]) == a && Sum([b]) == b by {
      assert [a][..0] == [] && [b][..0] == [];
    }
    SumAppend([a], [b]);
    assert j.Load(0, 2) == base + a + b;
    assert j.MaxEnd(0, 1) == 1 && j.MaxEnd(1, 2) == 2;
    EndsStep(j, 0);
    EndsStep(j, 1);
    EndsStep(j, 2);
  }

  /** Two items that fit alone but not together are planned as two chunks. */
  lemma TwoChunks(request: Request, creation: bool, x: Item, y: Item)
    requires ItemsOf(request) == Success([x, y]) && !Positional(request)
    requires var base := HeaderSize(Reserve(Cleared(request), creation));
             base + ItemSize(x) <= MAX_RPC_SIZE && base + ItemSize(y) <= MAX_RPC_SIZE < base + ItemSize(x) + ItemSize(y)
    ensures PlanOf(request, creation).Success?
    ensures var chunks := Chunks(request, creation);
            && |chunks| == 2
            && ItemsOf(chunks[0].request) == Success([x]) && ItemsOf(chunks[1].request) == Success([y])
  {
    hide *;
    var base, items := HeaderSize(Reserve(Cleared(request), creation)), [x, y];
    PlanRefinesLinear(request, creation);
    NeitherTooLarge(base, x, y);
    TwoSlices(base, x, y);
    ListsOfTwo(Chunks(request, creation), [x], [y]);
  }

  lemma NeitherTooLarge(base: nat, x: Item, y: Item)
    requires base + ItemSize(x) <= MAX_RPC_SIZE && base + ItemSize(y) <= MAX_RPC_SIZE
    ensures !TooLarge(base, [x, y], ItemSize)
  {
    hide ItemSize;
  }

  lemma TwoSlices(base: nat, x: Item, y: Item)
    requires base + ItemSize(x) <= MAX_RPC_SIZE && base + ItemSize(y) <= MAX_RPC_SIZE < base + ItemSize(x) + ItemSize(y)
    ensures LinearChunks(base, [x, y], ItemSize) == [[x], [y]]
  {
    hide ItemSize;
    assert SizesOf([x, y], ItemSize) == [ItemSize(x), ItemSize(y)];
    TwoEnds(base, ItemSize(x), ItemSize(y));
    hide LinearJob;
    assert [1, 2][1..] == [2] && [2][1..] == [];
    assert [x, y][0..1] == [x] && [x, y][1..2] == [y];
  }

  lemma ListsOfTwo(chunks: seq<Planned>, a: seq<Item>, b: seq<Item>)
    requires forall chunk <- chunks :: ItemsOf(chunk.request).Success?
    requires ItemLists(chunks) == [a, b]
    ensures |chunks| == 2
    ensures ItemsOf(chunks[0].request) == Success(a) && ItemsOf(chunks[1].request) == Success(b)
  {
    hide ItemsOf;
    assert |ItemLists(chunks)| == |chunks|;
    assert ItemLists(chunks)[0] == ItemsOf(chunks[0].request).value;
    assert ItemLists(chunks)[1] == ItemsOf(chunks[1].request).value;
  }
}
