/**
 The messages of proto/cache.proto that bulk requests are made of, and their encoding.
 Fields without presence are written only when they differ from their default;
 `optional` fields whenever they are set. Every field number fits a one-byte tag.
 */
module Messages {
  import opened Basics
  import opened Wire

  datatype Payload = Payload(bytes: Bytes, size: uint32)
  datatype KeyHint = KeyHint(week: Option<uint32>, strong: Option<uint32>)
  datatype CompressedInfo = CompressedInfo(enabled: bool, rawSize: Option<uint32>)
  datatype LockInfo = LockInfo(kind: nat, lockedBy: Option<uint32>, lockedTill: Option<uint64>)

  datatype Key = Key(payload: Payload, compression: Option<CompressedInfo>,
                     hint: Option<KeyHint>, clientId: Option<uint32>)

  datatype OrderedKey = OrderedKey(payload: Payload, order: Option<uint64>, compression: Option<CompressedInfo>,
                                   hint: Option<KeyHint>, clientId: Option<uint32>)

  datatype Value = Value(value: Payload, compression: Option<CompressedInfo>,
                         ttl: Option<uint64>, lock: Option<LockInfo>)

  datatype OrderedValue = OrderedValue(value: Payload, order: Option<uint64>, compression: Option<CompressedInfo>,
                                       ttl: Option<uint64>, lock: Option<LockInfo>)

  /** The four repeated fields of CreateContainerRequest and AddToRequest. */
  datatype Lists = Lists(keyUnordered: seq<Key>, valueUnordered: seq<Value>,
                         keyOrdered: seq<OrderedKey>, valueOrdered: seq<OrderedValue>)

  const NO_ITEMS := Lists([], [], [], [])

  datatype Request =
    | CreateContainer(key: Key, kind: nat, ttl: Option<uint64>, lock: Option<LockInfo>, lists: Lists)
    | AddTo(key: Key, addKind: Option<nat>, ttl: Option<uint64>, pos: Option<uint32>, lists: Lists)
    | AddToVal(key: Key, ttl: Option<uint64>, isBefore: bool, pivot: Value, value: seq<Value>)
    | RemoveFrom(key: Key, addKind: Option<nat>, values: seq<Value>, keys: seq<Key>)

  /** ContainerType of proto/cache.proto. */
  const VECTOR := 1
  const LIST := 2
  const QUEUE := 3
  const SET := 4
  const MAP := 5
  const ORDERED_MAP := 6
  const ORDERED_SET := 7

  // ---------- encoding ----------

  function Implicit(num: nat, value: nat): seq<Field> {
    if value == 0 then [] else [Number(num, value)]
  }

  function Optional(num: nat, value: Option<nat>): seq<Field> {
    if value.None? then [] else [Number(num, value.value)]
  }

  function OptionalMessage(num: nat, body: Option<Bytes>): seq<Field> {
    if body.None? then [] else [Delimited(num, body.value)]
  }

  function Repeated(num: nat, bodies: seq<Bytes>): seq<Field> {
    seq(|bodies|, i requires 0 <= i < |bodies| => Delimited(num, bodies[i]))
  }

  function Bool(b: bool): nat {
    if b then 1 else 0
  }

  function EncodePayload(p: Payload): Bytes {
    Encode((if p.bytes == [] then [] else [Delimited(1, p.bytes)]) + Implicit(2, p.size))
  }

  function HintFields(h: KeyHint): seq<Field> {
    Optional(1, h.week) + Optional(2, h.strong)
  }

  function CompressionBody(c: Option<CompressedInfo>): Option<Bytes> {
    if c.None? then None
    else Some(Encode(Implicit(1, Bool(c.value.enabled)) + Optional(2, c.value.rawSize)))
  }

  function HintBody(h: Option<KeyHint>): Option<Bytes> {
    if h.None? then None else Some(Encode(HintFields(h.value)))
  }

  function LockBody(l: Option<LockInfo>): Option<Bytes> {
    if l.None? then None
    else Some(Encode(Implicit(1, l.value.kind) + Optional(2, l.value.lockedBy) + Optional(3, l.value.lockedTill)))
  }

  /** The records of a key apart from its hint. */
  function KeyBody(k: Key): seq<Field> {
    [Delimited(1, EncodePayload(k.payload))] + OptionalMessage(2, CompressionBody(k.compression))
  }

  function EncodeKey(k: Key): Bytes {
    Encode(KeyBody(k) + OptionalMessage(3, HintBody(k.hint)) + Optional(4, k.clientId))
  }

  function EncodeOrderedKey(k: OrderedKey): Bytes {
    Encode([Delimited(1, EncodePayload(k.payload))] + Optional(2, k.order)
           + OptionalMessage(3, CompressionBody(k.compression)) + OptionalMessage(4, HintBody(k.hint))
           + Optional(5, k.clientId))
  }

  function EncodeValue(v: Value): Bytes {
    Encode([Delimited(1, EncodePayload(v.value))] + OptionalMessage(2, CompressionBody(v.compression))
           + Optional(3, v.ttl) + OptionalMessage(4, LockBody(v.lock)))
  }

  function EncodeOrderedValue(v: OrderedValue): Bytes {
    Encode([Delimited(1, EncodePayload(v.value))] + Optional(2, v.order)
           + OptionalMessage(3, CompressionBody(v.compression)) + Optional(4, v.ttl)
           + OptionalMessage(5, LockBody(v.lock)))
  }

  function KeyBodies(ks: seq<Key>): seq<Bytes> {
    seq(|ks|, i requires 0 <= i < |ks| => EncodeKey(ks[i]))
  }

  function OrderedKeyBodies(ks: seq<OrderedKey>): seq<Bytes> {
    seq(|ks|, i requires 0 <= i < |ks| => EncodeOrderedKey(ks[i]))
  }

  function ValueBodies(vs: seq<Value>): seq<Bytes> {
    seq(|vs|, i requires 0 <= i < |vs| => EncodeValue(vs[i]))
  }

  function OrderedValueBodies(vs: seq<OrderedValue>): seq<Bytes> {
    seq(|vs|, i requires 0 <= i < |vs| => EncodeOrderedValue(vs[i]))
  }

  function ListFields(l: Lists): seq<Field> {
    Repeated(5, KeyBodies(l.keyUnordered)) + Repeated(6, ValueBodies(l.valueUnordered))
    + Repeated(7, OrderedKeyBodies(l.keyOrdered)) + Repeated(8, OrderedValueBodies(l.valueOrdered))
  }

  /** Everything but the repeated item fields. */
  function HeaderFields(r: Request): seq<Field> {
    match r
    case CreateContainer(key, kind, ttl, lock, _) =>
      [Delimited(1, EncodeKey(key))] + Implicit(2, kind) + Optional(3, ttl) + OptionalMessage(4, LockBody(lock))
    case AddTo(key, kind, ttl, pos, _) =>
      [Delimited(1, EncodeKey(key))] + Optional(2, kind) + Optional(3, ttl) + Optional(4, pos)
    case AddToVal(key, ttl, isBefore, pivot, _) =>
      [Delimited(1, EncodeKey(key))] + Optional(2, ttl) + Implicit(3, Bool(isBefore))
      + [Delimited(4, EncodeValue(pivot))]
    case RemoveFrom(key, kind, _, _) =>
      [Delimited(1, EncodeKey(key))] + Optional(2, kind)
  }

  function ItemFields(r: Request): seq<Field> {
    match r
    case CreateContainer(_, _, _, _, lists) => ListFields(lists)
    case AddTo(_, _, _, _, lists) => ListFields(lists)
    case AddToVal(_, _, _, _, value) => Repeated(5, ValueBodies(value))
    case RemoveFrom(_, _, values, keys) => Repeated(3, ValueBodies(values)) + Repeated(4, KeyBodies(keys))
  }

  function EncodeRequest(r: Request): Bytes {
    Encode(HeaderFields(r) + ItemFields(r))
  }

  /** protobuf's ByteSize: the length of the serialized request. */
  function ByteSize(r: Request): nat {
    |EncodeRequest(r)|
  }

  function HeaderSize(r: Request): nat {
    |Encode(HeaderFields(r))|
  }

  // ---------- how a repeated field adds to the size ----------

  function BodySizes(bodies: seq<Bytes>): nat {
    if bodies == [] then 0 else BodySizes(bodies[..|bodies| - 1]) + DelimitedSize(|bodies[|bodies| - 1]|)
  }

  lemma {:induction false} RepeatedSize(num: nat, bodies: seq<Bytes>)
    requires 1 <= num <= 15
    ensures |Encode(Repeated(num, bodies))| == BodySizes(bodies)
  {
    if bodies != [] {
      var n := |bodies| - 1;
      assert Repeated(num, bodies) == Repeated(num, bodies[..n]) + [Delimited(num, bodies[n])];
      EncodeAppend(Repeated(num, bodies[..n]), [Delimited(num, bodies[n])]);
      RepeatedSize(num, bodies[..n]);
      EncodeOne(Delimited(num, bodies[n]));
    }
  }

  lemma BodySizesPush(bodies: seq<Bytes>, body: Bytes)
    ensures BodySizes(bodies + [body]) == BodySizes(bodies) + DelimitedSize(|body|)
  {
    assert (bodies + [body])[..|bodies|] == bodies;
  }

  function ListSize(l: Lists): nat {
    BodySizes(KeyBodies(l.keyUnordered)) + BodySizes(ValueBodies(l.valueUnordered))
    + BodySizes(OrderedKeyBodies(l.keyOrdered)) + BodySizes(OrderedValueBodies(l.valueOrdered))
  }

  function ItemsSize(r: Request): nat {
    match r
    case CreateContainer(_, _, _, _, lists) => ListSize(lists)
    case AddTo(_, _, _, _, lists) => ListSize(lists)
    case AddToVal(_, _, _, _, value) => BodySizes(ValueBodies(value))
    case RemoveFrom(_, _, values, keys) => BodySizes(ValueBodies(values)) + BodySizes(KeyBodies(keys))
  }

  lemma ListFieldsSize(l: Lists)
    ensures |Encode(ListFields(l))| == ListSize(l)
  {
    var k, v := Repeated(5, KeyBodies(l.keyUnordered)), Repeated(6, ValueBodies(l.valueUnordered));
    var ko, vo := Repeated(7, OrderedKeyBodies(l.keyOrdered)), Repeated(8, OrderedValueBodies(l.valueOrdered));
    EncodeAppend(k + v + ko, vo);
    EncodeAppend(k + v, ko);
    EncodeAppend(k, v);
    RepeatedSize(5, KeyBodies(l.keyUnordered));
    RepeatedSize(6, ValueBodies(l.valueUnordered));
    RepeatedSize(7, OrderedKeyBodies(l.keyOrdered));
    RepeatedSize(8, OrderedValueBodies(l.valueOrdered));
  }

  /** The serialized size splits into the header and one tag-length-body term per item. */
  lemma ByteSizeSplits(r: Request)
    ensures ByteSize(r) == HeaderSize(r) + ItemsSize(r)
  {
    EncodeAppend(HeaderFields(r), ItemFields(r));
    match r
    case CreateContainer(_, _, _, _, lists) => ListFieldsSize(lists);
    case AddTo(_, _, _, _, lists) => ListFieldsSize(lists);
    case AddToVal(_, _, _, _, value) => RepeatedSize(5, ValueBodies(value));
    case RemoveFrom(_, _, values, keys) =>
      EncodeAppend(Repeated(3, ValueBodies(values)), Repeated(4, KeyBodies(keys)));
      RepeatedSize(3, ValueBodies(values));
      RepeatedSize(4, KeyBodies(keys));
  }

  // ---------- header sizes ----------

  function OptionalSize(value: Option<nat>): nat {
    if value.None? then 0 else 1 + |Varint(value.value)|
  }

  lemma OptionalEncodes(num: nat, value: Option<nat>)
    requires 1 <= num <= 15
    ensures |Encode(Optional(num, value))| == OptionalSize(value)
  {
    if value.Some? {
      EncodeOne(Number(num, value.value));
    }
  }

  function OptionalMessageSize(body: Option<Bytes>): nat {
    if body.None? then 0 else DelimitedSize(|body.value|)
  }

  lemma OptionalMessageEncodes(num: nat, body: Option<Bytes>)
    requires 1 <= num <= 15
    ensures |Encode(OptionalMessage(num, body))| == OptionalMessageSize(body)
  {
    if body.Some? {
      EncodeOne(Delimited(num, body.value));
    }
  }

  /** Size of AddToRequest's header, with the position as a separate term. */
  lemma AddHeaderSize(r: Request)
    requires r.AddTo?
    ensures HeaderSize(r) == DelimitedSize(|EncodeKey(r.key)|) + OptionalSize(r.addKind)
                             + OptionalSize(r.ttl) + OptionalSize(r.pos)
  {
    var k := [Delimited(1, EncodeKey(r.key))];
    EncodeAppend(k + Optional(2, r.addKind) + Optional(3, r.ttl), Optional(4, r.pos));
    EncodeAppend(k + Optional(2, r.addKind), Optional(3, r.ttl));
    EncodeAppend(k, Optional(2, r.addKind));
    EncodeOne(k[0]);
    OptionalEncodes(2, r.addKind);
    OptionalEncodes(3, r.ttl);
    OptionalEncodes(4, r.pos);
  }

  lemma CreateHeaderSize(r: Request)
    requires r.CreateContainer?
    ensures HeaderSize(r) == DelimitedSize(|EncodeKey(r.key)|) + (if r.kind == 0 then 0 else 1 + |Varint(r.kind)|)
                             + OptionalSize(r.ttl) + OptionalMessageSize(LockBody(r.lock))
  {
    var k := [Delimited(1, EncodeKey(r.key))];
    EncodeAppend(k + Implicit(2, r.kind) + Optional(3, r.ttl), OptionalMessage(4, LockBody(r.lock)));
    EncodeAppend(k + Implicit(2, r.kind), Optional(3, r.ttl));
    EncodeAppend(k, Implicit(2, r.kind));
    EncodeOne(k[0]);
    if r.kind != 0 {
      EncodeOne(Number(2, r.kind));
    }
    OptionalEncodes(3, r.ttl);
    OptionalMessageEncodes(4, LockBody(r.lock));
  }

  // ---------- hints ----------

  const FULL_HINT := KeyHint(Some(UINT32_MAX), Some(UINT32_MAX))

  lemma HintSize(h: KeyHint)
    ensures |Encode(HintFields(h))| == OptionalSize(h.week) + OptionalSize(h.strong)
  {
    EncodeAppend(Optional(1, h.week), Optional(2, h.strong));
    OptionalEncodes(1, h.week);
    OptionalEncodes(2, h.strong);
  }

  lemma KeySize(k: Key)
    ensures |EncodeKey(k)| == |Encode(KeyBody(k))| + OptionalMessageSize(HintBody(k.hint)) + OptionalSize(k.clientId)
  {
    EncodeAppend(KeyBody(k) + OptionalMessage(3, HintBody(k.hint)), Optional(4, k.clientId));
    EncodeAppend(KeyBody(k), OptionalMessage(3, HintBody(k.hint)));
    OptionalMessageEncodes(3, HintBody(k.hint));
    OptionalEncodes(4, k.clientId);
  }

  /** Reserving both hash words leaves room for any hint the server may return, or none. */
  lemma FullHintIsLargest(h: Option<KeyHint>)
    ensures OptionalMessageSize(HintBody(h)) <= OptionalMessageSize(HintBody(Some(FULL_HINT)))
  {
    HintSize(FULL_HINT);
    if h.Some? {
      HintSize(h.value);
      if h.value.week.Some? {
        VarintUint32(h.value.week.value);
      }
      if h.value.strong.Some? {
        VarintUint32(h.value.strong.value);
      }
      VarintUint32(0);
      VarintMonotone(|HintBody(h).value|, |HintBody(Some(FULL_HINT)).value|);
    }
  }

  lemma ReservedKeyIsLargest(k: Key, h: Option<KeyHint>)
    ensures |EncodeKey(k.(hint := h))| <= |EncodeKey(k.(hint := Some(FULL_HINT)))|
  {
    KeySize(k.(hint := h));
    KeySize(k.(hint := Some(FULL_HINT)));
    FullHintIsLargest(h);
  }
}
