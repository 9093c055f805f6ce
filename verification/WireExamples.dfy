/** Encodings byte for byte: the examples of the wire format, and one of every message. */
module WireExamples {
  import opened Basics
  import opened Wire
  import opened Messages

  /** 150 in field 1 and the text "testing" in field 2, as in the description of the wire format. */
  lemma FormatExamples()
    ensures Varint(1) == [1] && Varint(150) == [0x96, 0x01] && Varint(300) == [0xAC, 0x02]
    ensures EncodeField(Number(1, 150)) == [0x08, 0x96, 0x01]
    ensures EncodeField(Delimited(2, [0x74, 0x65, 0x73, 0x74, 0x69, 0x6E, 0x67]))
            == [0x12, 0x07, 0x74, 0x65, 0x73, 0x74, 0x69, 0x6E, 0x67]
  {
    assert Varint(18) == [18] && Varint(8) == [8] && Varint(7) == [7];
    assert Varint(2) == [2];
  }

  // ---------- the records of every message with all fields set ----------

  function Info(raw: uint32): Bytes {
    Encode([Number(1, 1), Number(2, raw)])
  }

  function Hint(week: uint32, strong: uint32): Bytes {
    Encode([Number(1, week), Number(2, strong)])
  }

  function Lock(kind: nat, owner: uint32, till: uint64): Bytes {
    Encode([Number(1, kind), Number(2, owner), Number(3, till)])
  }

  function BytesOf(bytes: Bytes, size: uint32): Bytes {
    Encode([Delimited(1, bytes), Number(2, size)])
  }

  /** Parts: payloads, compression, hints and locks; a zero size, kind or flag without presence is not written. */
  lemma PartRecords(bytes: Bytes, size: uint32, raw: uint32, week: uint32, strong: uint32, kind: nat,
                    owner: uint32, till: uint64)
    requires bytes != [] && size > 0 && kind > 0
    ensures EncodePayload(Payload(bytes, size)) == BytesOf(bytes, size)
    ensures EncodePayload(Payload([], 0)) == []
    ensures CompressionBody(Some(CompressedInfo(true, Some(raw)))) == Some(Info(raw))
    ensures HintBody(Some(KeyHint(Some(week), Some(strong)))) == Some(Hint(week, strong))
    ensures LockBody(Some(LockInfo(kind, Some(owner), Some(till)))) == Some(Lock(kind, owner, till))
    ensures LockBody(Some(LockInfo(0, Some(owner), None))) == Some(Encode([Number(2, owner)]))
    ensures CompressionBody(None) == HintBody(None) == LockBody(None) == None
  {
    assert Encode([]) == [];
    hide Encode;
    assert [] + [Number(2, owner)] + [] == [Number(2, owner)];
    assert [Number(1, kind)] + [Number(2, owner)] + [Number(3, till)]
           == [Number(1, kind), Number(2, owner), Number(3, till)];
    assert [Number(1, week)] + [Number(2, strong)] == [Number(1, week), Number(2, strong)];
    assert [Number(1, 1)] + [Number(2, raw)] == [Number(1, 1), Number(2, raw)];
    assert [Delimited(1, bytes)] + [Number(2, size)] == [Delimited(1, bytes), Number(2, size)];
  }

  lemma KeyRecords(k: Key, o: OrderedKey)
    requires k.compression.Some? && k.hint.Some? && k.clientId.Some?
    requires o.order.Some? && o.compression.Some? && o.hint.Some? && o.clientId.Some?
    ensures EncodeKey(k)
            == Encode([Delimited(1, EncodePayload(k.payload)), Delimited(2, CompressionBody(k.compression).value),
                       Delimited(3, HintBody(k.hint).value), Number(4, k.clientId.value)])
    ensures EncodeOrderedKey(o)
            == Encode([Delimited(1, EncodePayload(o.payload)), Number(2, o.order.value),
                       Delimited(3, CompressionBody(o.compression).value), Delimited(4, HintBody(o.hint).value),
                       Number(5, o.clientId.value)])
  {
    hide Encode, EncodePayload;
    assert KeyBody(k) + OptionalMessage(3, HintBody(k.hint)) + Optional(4, k.clientId)
           == [Delimited(1, EncodePayload(k.payload)), Delimited(2, CompressionBody(k.compression).value),
               Delimited(3, HintBody(k.hint).value), Number(4, k.clientId.value)];
    assert [Delimited(1, EncodePayload(o.payload))] + Optional(2, o.order)
           + OptionalMessage(3, CompressionBody(o.compression)) + OptionalMessage(4, HintBody(o.hint))
           + Optional(5, o.clientId)
           == [Delimited(1, EncodePayload(o.payload)), Number(2, o.order.value),
               Delimited(3, CompressionBody(o.compression).value), Delimited(4, HintBody(o.hint).value),
               Number(5, o.clientId.value)];
  }

  lemma ValueRecords(v: Value, o: OrderedValue)
    requires v.compression.Some? && v.ttl.Some? && v.lock.Some?
    requires o.order.Some? && o.compression.Some? && o.ttl.Some? && o.lock.Some?
    ensures EncodeValue(v)
            == Encode([Delimited(1, EncodePayload(v.value)), Delimited(2, CompressionBody(v.compression).value),
                       Number(3, v.ttl.value), Delimited(4, LockBody(v.lock).value)])
    ensures EncodeOrderedValue(o)
            == Encode([Delimited(1, EncodePayload(o.value)), Number(2, o.order.value),
                       Delimited(3, CompressionBody(o.compression).value), Number(4, o.ttl.value),
                       Delimited(5, LockBody(o.lock).value)])
  {
    hide Encode, EncodePayload;
    assert [Delimited(1, EncodePayload(v.value))] + OptionalMessage(2, CompressionBody(v.compression))
           + Optional(3, v.ttl) + OptionalMessage(4, LockBody(v.lock))
           == [Delimited(1, EncodePayload(v.value)), Delimited(2, CompressionBody(v.compression).value),
               Number(3, v.ttl.value), Delimited(4, LockBody(v.lock).value)];
    assert [Delimited(1, EncodePayload(o.value))] + Optional(2, o.order)
           + OptionalMessage(3, CompressionBody(o.compression)) + Optional(4, o.ttl)
           + OptionalMessage(5, LockBody(o.lock))
           == [Delimited(1, EncodePayload(o.value)), Number(2, o.order.value),
               Delimited(3, CompressionBody(o.compression).value), Number(4, o.ttl.value),
               Delimited(5, LockBody(o.lock).value)];
  }

  lemma CreateRecords(key: Key, kind: nat, ttl: uint64, lock: LockInfo, k: Key, v: Value, ok: OrderedKey,
                      ov: OrderedValue)
    requires kind > 0
    ensures EncodeRequest(CreateContainer(key, kind, Some(ttl), Some(lock), Lists([k], [v], [ok], [ov])))
            == Encode([Delimited(1, EncodeKey(key)), Number(2, kind), Number(3, ttl),
                       Delimited(4, LockBody(Some(lock)).value), Delimited(5, EncodeKey(k)),
                       Delimited(6, EncodeValue(v)), Delimited(7, EncodeOrderedKey(ok)),
                       Delimited(8, EncodeOrderedValue(ov))])
    ensures EncodeRequest(CreateContainer(key, 0, None, None, NO_ITEMS)) == Encode([Delimited(1, EncodeKey(key))])
  {
    hide Encode, EncodeKey, EncodeValue, EncodeOrderedKey, EncodeOrderedValue;
    OneOfEach(k, v, ok, ov);
    NoFields();
    var r := CreateContainer(key, kind, Some(ttl), Some(lock), Lists([k], [v], [ok], [ov]));
    assert HeaderFields(r) == [Delimited(1, EncodeKey(key)), Number(2, kind), Number(3, ttl),
                               Delimited(4, LockBody(Some(lock)).value)];
    hide ListFields;
    assert HeaderFields(r) + ItemFields(r)
           == [Delimited(1, EncodeKey(key)), Number(2, kind), Number(3, ttl),
               Delimited(4, LockBody(Some(lock)).value), Delimited(5, EncodeKey(k)),
               Delimited(6, EncodeValue(v)), Delimited(7, EncodeOrderedKey(ok)), Delimited(8, EncodeOrderedValue(ov))];
    var none := CreateContainer(key, 0, None, None, NO_ITEMS);
    assert HeaderFields(none) + ItemFields(none) == [Delimited(1, EncodeKey(key))];
  }

  lemma OneOfEach(k: Key, v: Value, ok: OrderedKey, ov: OrderedValue)
    ensures ListFields(Lists([k], [v], [ok], [ov]))
            == [Delimited(5, EncodeKey(k)), Delimited(6, EncodeValue(v)), Delimited(7, EncodeOrderedKey(ok)),
                Delimited(8, EncodeOrderedValue(ov))]
  {
    hide EncodeKey, EncodeValue, EncodeOrderedKey, EncodeOrderedValue;
  }

  lemma NoFields()
    ensures ListFields(NO_ITEMS) == []
  {
  }

  lemma AddRecords(key: Key, kind: nat, ttl: uint64, pos: uint32, k: Key, v: Value, ok: OrderedKey, ov: OrderedValue)
    ensures EncodeRequest(AddTo(key, Some(kind), Some(ttl), Some(pos), Lists([k], [v], [ok], [ov])))
            == Encode([Delimited(1, EncodeKey(key)), Number(2, kind), Number(3, ttl), Number(4, pos),
                       Delimited(5, EncodeKey(k)), Delimited(6, EncodeValue(v)),
                       Delimited(7, EncodeOrderedKey(ok)), Delimited(8, EncodeOrderedValue(ov))])
  {
    hide Encode, EncodeKey, EncodeValue, EncodeOrderedKey, EncodeOrderedValue;
    OneOfEach(k, v, ok, ov);
    hide ListFields;
    var r := AddTo(key, Some(kind), Some(ttl), Some(pos), Lists([k], [v], [ok], [ov]));
    assert HeaderFields(r) == [Delimited(1, EncodeKey(key)), Number(2, kind), Number(3, ttl), Number(4, pos)];
    assert HeaderFields(r) + ItemFields(r)
           == [Delimited(1, EncodeKey(key)), Number(2, kind), Number(3, ttl), Number(4, pos),
               Delimited(5, EncodeKey(k)), Delimited(6, EncodeValue(v)),
               Delimited(7, EncodeOrderedKey(ok)), Delimited(8, EncodeOrderedValue(ov))];
  }

  lemma OtherRecords(key: Key, ttl: uint64, pivot: Value, v: Value, kind: nat, k: Key)
    ensures EncodeRequest(AddToVal(key, Some(ttl), true, pivot, [v]))
            == Encode([Delimited(1, EncodeKey(key)), Number(2, ttl), Number(3, 1), Delimited(4, EncodeValue(pivot)),
                       Delimited(5, EncodeValue(v))])
    ensures EncodeRequest(AddToVal(key, None, false, pivot, []))
            == Encode([Delimited(1, EncodeKey(key)), Delimited(4, EncodeValue(pivot))])
    ensures EncodeRequest(RemoveFrom(key, Some(kind), [v], [k]))
            == Encode([Delimited(1, EncodeKey(key)), Number(2, kind), Delimited(3, EncodeValue(v)),
                       Delimited(4, EncodeKey(k))])
  {
    hide Encode, EncodeKey, EncodeValue;
    var before, after := AddToVal(key, Some(ttl), true, pivot, [v]), AddToVal(key, None, false, pivot, []);
    var remove := RemoveFrom(key, Some(kind), [v], [k]);
    assert HeaderFields(before) + ItemFields(before)
           == [Delimited(1, EncodeKey(key)), Number(2, ttl), Number(3, 1), Delimited(4, EncodeValue(pivot)),
               Delimited(5, EncodeValue(v))];
    assert HeaderFields(after) + ItemFields(after) == [Delimited(1, EncodeKey(key)), Delimited(4, EncodeValue(pivot))];
    assert HeaderFields(remove) + ItemFields(remove)
           == [Delimited(1, EncodeKey(key)), Number(2, kind), Delimited(3, EncodeValue(v)), Delimited(4, EncodeKey(k))];
  }
}
