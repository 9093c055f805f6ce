/** Requests are recovered from their bytes: no two of one message type have the same encoding. */
module Recovery {
  import opened Basics
  import opened Wire
  import opened Messages

  predicate Within(fields: seq<Field>, low: nat, high: nat) {
    forall f <- fields :: low <= f.num <= high
  }

  lemma EncodeInjective(a: seq<Field>, b: seq<Field>)
    requires Encode(a) == Encode(b)
    ensures a == b
  {
    EncodeRoundTrip(a);
    EncodeRoundTrip(b);
  }

  lemma NotLonger(a: seq<Field>, b: seq<Field>, a': seq<Field>, b': seq<Field>, n: nat, m: nat)
    requires Within(a, 0, n) && Within(a', 0, n) && Within(b, n + 1, m) && Within(b', n + 1, m)
    requires a + b == a' + b'
    ensures |a| <= |a'|
  {
    var whole := a + b;
    assert forall i :: 0 <= i < |a| ==> whole[i] == a[i] && a[i] in a;
    assert forall i :: |a'| <= i < |whole| ==> whole[i] == b'[i - |a'|] && b'[i - |a'|] in b';
    assert forall i :: 0 <= i < |a| ==> whole[i].num <= n;
    assert forall i :: |a'| <= i < |whole| ==> whole[i].num > n;
    assert |a'| < |whole| ==> whole[|a'|].num > n;
  }

  /** Records in ascending order of their numbers are told apart by the numbers. */
  lemma SplitAt(a: seq<Field>, b: seq<Field>, a': seq<Field>, b': seq<Field>, n: nat, m: nat)
    requires Within(a, 0, n) && Within(a', 0, n) && Within(b, n + 1, m) && Within(b', n + 1, m)
    requires a + b == a' + b'
    ensures a == a' && b == b'
  {
    NotLonger(a, b, a', b', n, m);
    NotLonger(a', b', a, b, n, m);
    assert (a + b)[..|a|] == a && (a' + b')[..|a|] == a';
    assert (a + b)[|a|..] == b && (a' + b')[|a|..] == b';
  }

  lemma WithinAppend(a: seq<Field>, b: seq<Field>, low: nat, mid: nat, high: nat)
    requires Within(a, low, mid) && Within(b, mid + 1, high) && low <= mid <= high
    ensures Within(a + b, low, high)
  {
  }

  lemma Two(a: seq<Field>, b: seq<Field>, a': seq<Field>, b': seq<Field>, n: nat)
    requires Within(a, n, n) && Within(a', n, n) && Within(b, n + 1, n + 1) && Within(b', n + 1, n + 1)
    requires a + b == a' + b'
    ensures a == a' && b == b'
  {
    SplitAt(a, b, a', b', n, n + 1);
  }

  lemma Three(a: seq<Field>, b: seq<Field>, c: seq<Field>, a': seq<Field>, b': seq<Field>, c': seq<Field>, n: nat)
    requires Within(a, n, n) && Within(b, n + 1, n + 1) && Within(c, n + 2, n + 2)
    requires Within(a', n, n) && Within(b', n + 1, n + 1) && Within(c', n + 2, n + 2)
    requires a + b + c == a' + b' + c'
    ensures a == a' && b == b' && c == c'
  {
    WithinAppend(a, b, n, n, n + 1);
    WithinAppend(a', b', n, n, n + 1);
    SplitAt(a + b, c, a' + b', c', n + 1, n + 2);
    Two(a, b, a', b', n);
  }

  lemma Four(a: seq<Field>, b: seq<Field>, c: seq<Field>, d: seq<Field>,
             a': seq<Field>, b': seq<Field>, c': seq<Field>, d': seq<Field>, n: nat)
    requires Within(a, n, n) && Within(b, n + 1, n + 1) && Within(c, n + 2, n + 2) && Within(d, n + 3, n + 3)
    requires Within(a', n, n) && Within(b', n + 1, n + 1) && Within(c', n + 2, n + 2) && Within(d', n + 3, n + 3)
    requires a + b + c + d == a' + b' + c' + d'
    ensures a == a' && b == b' && c == c' && d == d'
  {
    WithinAppend(a, b, n, n, n + 1);
    WithinAppend(a', b', n, n, n + 1);
    WithinAppend(a + b, c, n, n + 1, n + 2);
    WithinAppend(a' + b', c', n, n + 1, n + 2);
    SplitAt(a + b + c, d, a' + b' + c', d', n + 2, n + 3);
    Three(a, b, c, a', b', c', n);
  }

  lemma Five(a: seq<Field>, b: seq<Field>, c: seq<Field>, d: seq<Field>, e: seq<Field>,
             a': seq<Field>, b': seq<Field>, c': seq<Field>, d': seq<Field>, e': seq<Field>, n: nat)
    requires Within(a, n, n) && Within(b, n + 1, n + 1) && Within(c, n + 2, n + 2) && Within(d, n + 3, n + 3)
    requires Within(a', n, n) && Within(b', n + 1, n + 1) && Within(c', n + 2, n + 2) && Within(d', n + 3, n + 3)
    requires Within(e, n + 4, n + 4) && Within(e', n + 4, n + 4)
    requires a + b + c + d + e == a' + b' + c' + d' + e'
    ensures a == a' && b == b' && c == c' && d == d' && e == e'
  {
    WithinAppend(a, b, n, n, n + 1);
    WithinAppend(a', b', n, n, n + 1);
    WithinAppend(a + b, c, n, n + 1, n + 2);
    WithinAppend(a' + b', c', n, n + 1, n + 2);
    WithinAppend(a + b + c, d, n, n + 2, n + 3);
    WithinAppend(a' + b' + c', d', n, n + 2, n + 3);
    SplitAt(a + b + c + d, e, a' + b' + c' + d', e', n + 3, n + 4);
    Four(a, b, c, d, a', b', c', d', n);
  }

  // ---------- single fields ----------

  lemma FieldsWithin(n: nat)
    ensures forall v :: Within(Implicit(n, v), n, n)
    ensures forall b :: Within(OptionalMessage(n, b), n, n)
    ensures forall b :: Within([Delimited(n, b)], n, n)
    ensures forall bs :: Within(Repeated(n, bs), n, n)
  {
  }

  lemma OptionalsWithin(n: nat, v: Option<nat>, w: Option<nat>)
    ensures Within(Optional(n, v), n, n) && Within(Optional(n, w), n, n)
  {
  }

  lemma OptionalInjective(n: nat, v: Option<nat>, w: Option<nat>)
    requires Optional(n, v) == Optional(n, w)
    ensures v == w
  {
    if v.Some? && w.Some? {
      assert Optional(n, v)[0] == Optional(n, w)[0];
    }
  }

  lemma ImplicitInjective(n: nat, v: nat, w: nat)
    requires Implicit(n, v) == Implicit(n, w)
    ensures v == w
  {
    if v != 0 && w != 0 {
      assert Implicit(n, v)[0] == Implicit(n, w)[0];
    }
  }

  lemma BodyInjective(n: nat, b: Option<Bytes>, c: Option<Bytes>)
    requires OptionalMessage(n, b) == OptionalMessage(n, c)
    ensures b == c
  {
    if b.Some? && c.Some? {
      assert OptionalMessage(n, b)[0] == OptionalMessage(n, c)[0];
    }
  }

  lemma OneInjective(n: nat, b: Bytes, c: Bytes)
    requires [Delimited(n, b)] == [Delimited(n, c)]
    ensures b == c
  {
    assert [Delimited(n, b)][0] == [Delimited(n, c)][0];
  }

  lemma RepeatedInjective(n: nat, bs: seq<Bytes>, cs: seq<Bytes>)
    requires Repeated(n, bs) == Repeated(n, cs)
    ensures bs == cs
  {
    assert |bs| == |Repeated(n, bs)| == |cs|;
    forall i | 0 <= i < |bs|
      ensures bs[i] == cs[i]
    {
      assert Repeated(n, bs)[i] == Repeated(n, cs)[i];
    }
  }

  // ---------- messages ----------

  lemma PayloadInjective(p: Payload, q: Payload)
    requires EncodePayload(p) == EncodePayload(q)
    ensures p == q
  {
    hide Encode, Implicit;
    FieldsWithin(1);
    FieldsWithin(2);
    var a := if p.bytes == [] then [] else [Delimited(1, p.bytes)];
    var b := if q.bytes == [] then [] else [Delimited(1, q.bytes)];
    EncodeInjective(a + Implicit(2, p.size), b + Implicit(2, q.size));
    Two(a, Implicit(2, p.size), b, Implicit(2, q.size), 1);
    ImplicitInjective(2, p.size, q.size);
    if p.bytes != [] {
      OneInjective(1, p.bytes, q.bytes);
    }
  }

  lemma HintInjective(h: Option<KeyHint>, k: Option<KeyHint>)
    requires HintBody(h) == HintBody(k)
    ensures h == k
  {
    hide Encode, Optional;
    if h.Some? {
      FieldsWithin(1);
      FieldsWithin(2);
      OptionalsWithin(1, h.value.week, k.value.week);
      OptionalsWithin(2, h.value.strong, k.value.strong);
      EncodeInjective(HintFields(h.value), HintFields(k.value));
      Two(Optional(1, h.value.week), Optional(2, h.value.strong), Optional(1, k.value.week),
          Optional(2, k.value.strong), 1);
      OptionalInjective(1, h.value.week, k.value.week);
      OptionalInjective(2, h.value.strong, k.value.strong);
    }
  }

  lemma CompressionInjective(c: Option<CompressedInfo>, d: Option<CompressedInfo>)
    requires CompressionBody(c) == CompressionBody(d)
    ensures c == d
  {
    hide Encode, Optional, Implicit;
    if c.Some? {
      FieldsWithin(1);
      FieldsWithin(2);
      OptionalsWithin(2, c.value.rawSize, d.value.rawSize);
      var a, b := Implicit(1, Bool(c.value.enabled)), Implicit(1, Bool(d.value.enabled));
      EncodeInjective(a + Optional(2, c.value.rawSize), b + Optional(2, d.value.rawSize));
      Two(a, Optional(2, c.value.rawSize), b, Optional(2, d.value.rawSize), 1);
      ImplicitInjective(1, Bool(c.value.enabled), Bool(d.value.enabled));
      OptionalInjective(2, c.value.rawSize, d.value.rawSize);
    }
  }

  lemma LockInjective(l: Option<LockInfo>, m: Option<LockInfo>)
    requires LockBody(l) == LockBody(m)
    ensures l == m
  {
    hide Encode, Optional, Implicit;
    if l.Some? {
      FieldsWithin(1);
      FieldsWithin(2);
      FieldsWithin(3);
      OptionalsWithin(2, l.value.lockedBy, m.value.lockedBy);
      OptionalsWithin(3, l.value.lockedTill, m.value.lockedTill);
      var x, y := l.value, m.value;
      var a, b, c := Implicit(1, x.kind), Optional(2, x.lockedBy), Optional(3, x.lockedTill);
      var a', b', c' := Implicit(1, y.kind), Optional(2, y.lockedBy), Optional(3, y.lockedTill);
      EncodeInjective(a + b + c, a' + b' + c');
      Three(a, b, c, a', b', c', 1);
      ImplicitInjective(1, x.kind, y.kind);
      OptionalInjective(2, x.lockedBy, y.lockedBy);
      OptionalInjective(3, x.lockedTill, y.lockedTill);
    }
  }

  lemma KeyInjective(k: Key, l: Key)
    requires EncodeKey(k) == EncodeKey(l)
    ensures k == l
  {
    hide Encode, Optional, OptionalMessage, EncodePayload, CompressionBody, HintBody, Within;
    FieldsWithin(1);
    FieldsWithin(2);
    FieldsWithin(3);
    FieldsWithin(4);
    OptionalsWithin(4, k.clientId, l.clientId);
    var a, b, c, d := [Delimited(1, EncodePayload(k.payload))], OptionalMessage(2, CompressionBody(k.compression)),
                      OptionalMessage(3, HintBody(k.hint)), Optional(4, k.clientId);
    var a', b', c', d' := [Delimited(1, EncodePayload(l.payload))], OptionalMessage(2, CompressionBody(l.compression)),
                          OptionalMessage(3, HintBody(l.hint)), Optional(4, l.clientId);
    EncodeInjective(a + b + c + d, a' + b' + c' + d');
    Four(a, b, c, d, a', b', c', d', 1);
    OneInjective(1, EncodePayload(k.payload), EncodePayload(l.payload));
    PayloadInjective(k.payload, l.payload);
    BodyInjective(2, CompressionBody(k.compression), CompressionBody(l.compression));
    CompressionInjective(k.compression, l.compression);
    BodyInjective(3, HintBody(k.hint), HintBody(l.hint));
    HintInjective(k.hint, l.hint);
    OptionalInjective(4, k.clientId, l.clientId);
  }

  lemma OrderedKeyInjective(k: OrderedKey, l: OrderedKey)
    requires EncodeOrderedKey(k) == EncodeOrderedKey(l)
    ensures k == l
  {
    hide Encode, Optional, OptionalMessage, EncodePayload, CompressionBody, HintBody, Within;
    FieldsWithin(1);
    FieldsWithin(2);
    FieldsWithin(3);
    FieldsWithin(4);
    FieldsWithin(5);
    OptionalsWithin(2, k.order, l.order);
    OptionalsWithin(5, k.clientId, l.clientId);
    var a, b, c := [Delimited(1, EncodePayload(k.payload))], Optional(2, k.order),
                   OptionalMessage(3, CompressionBody(k.compression));
    var d, e := OptionalMessage(4, HintBody(k.hint)), Optional(5, k.clientId);
    var a', b', c' := [Delimited(1, EncodePayload(l.payload))], Optional(2, l.order),
                      OptionalMessage(3, CompressionBody(l.compression));
    var d', e' := OptionalMessage(4, HintBody(l.hint)), Optional(5, l.clientId);
    EncodeInjective(a + b + c + d + e, a' + b' + c' + d' + e');
    Five(a, b, c, d, e, a', b', c', d', e', 1);
    OneInjective(1, EncodePayload(k.payload), EncodePayload(l.payload));
    PayloadInjective(k.payload, l.payload);
    OptionalInjective(2, k.order, l.order);
    BodyInjective(3, CompressionBody(k.compression), CompressionBody(l.compression));
    CompressionInjective(k.compression, l.compression);
    BodyInjective(4, HintBody(k.hint), HintBody(l.hint));
    HintInjective(k.hint, l.hint);
    OptionalInjective(5, k.clientId, l.clientId);
  }

  lemma ValueInjective(v: Value, w: Value)
    requires EncodeValue(v) == EncodeValue(w)
    ensures v == w
  {
    hide Encode, Optional, OptionalMessage, EncodePayload, CompressionBody, LockBody, Within;
    FieldsWithin(1);
    FieldsWithin(2);
    FieldsWithin(3);
    FieldsWithin(4);
    OptionalsWithin(3, v.ttl, w.ttl);
    var a, b, c, d := [Delimited(1, EncodePayload(v.value))], OptionalMessage(2, CompressionBody(v.compression)),
                      Optional(3, v.ttl), OptionalMessage(4, LockBody(v.lock));
    var a', b', c', d' := [Delimited(1, EncodePayload(w.value))], OptionalMessage(2, CompressionBody(w.compression)),
                          Optional(3, w.ttl), OptionalMessage(4, LockBody(w.lock));
    EncodeInjective(a + b + c + d, a' + b' + c' + d');
    Four(a, b, c, d, a', b', c', d', 1);
    OneInjective(1, EncodePayload(v.value), EncodePayload(w.value));
    PayloadInjective(v.value, w.value);
    BodyInjective(2, CompressionBody(v.compression), CompressionBody(w.compression));
    CompressionInjective(v.compression, w.compression);
    OptionalInjective(3, v.ttl, w.ttl);
    BodyInjective(4, LockBody(v.lock), LockBody(w.lock));
    LockInjective(v.lock, w.lock);
  }

  lemma OrderedValueInjective(v: OrderedValue, w: OrderedValue)
    requires EncodeOrderedValue(v) == EncodeOrderedValue(w)
    ensures v == w
  {
    hide Encode, Optional, OptionalMessage, EncodePayload, CompressionBody, LockBody, Within;
    FieldsWithin(1);
    FieldsWithin(2);
    FieldsWithin(3);
    FieldsWithin(4);
    FieldsWithin(5);
    OptionalsWithin(2, v.order, w.order);
    OptionalsWithin(4, v.ttl, w.ttl);
    var a, b, c := [Delimited(1, EncodePayload(v.value))], Optional(2, v.order),
                   OptionalMessage(3, CompressionBody(v.compression));
    var d, e := Optional(4, v.ttl), OptionalMessage(5, LockBody(v.lock));
    var a', b', c' := [Delimited(1, EncodePayload(w.value))], Optional(2, w.order),
                      OptionalMessage(3, CompressionBody(w.compression));
    var d', e' := Optional(4, w.ttl), OptionalMessage(5, LockBody(w.lock));
    EncodeInjective(a + b + c + d + e, a' + b' + c' + d' + e');
    Five(a, b, c, d, e, a', b', c', d', e', 1);
    OneInjective(1, EncodePayload(v.value), EncodePayload(w.value));
    PayloadInjective(v.value, w.value);
    OptionalInjective(2, v.order, w.order);
    BodyInjective(3, CompressionBody(v.compression), CompressionBody(w.compression));
    CompressionInjective(v.compression, w.compression);
    OptionalInjective(4, v.ttl, w.ttl);
    BodyInjective(5, LockBody(v.lock), LockBody(w.lock));
    LockInjective(v.lock, w.lock);
  }

  // ---------- lists of items ----------

  lemma KeysInjective(n: nat, a: seq<Key>, b: seq<Key>)
    requires Repeated(n, KeyBodies(a)) == Repeated(n, KeyBodies(b))
    ensures a == b
  {
    hide EncodeKey, Repeated;
    RepeatedInjective(n, KeyBodies(a), KeyBodies(b));
    assert |a| == |KeyBodies(a)| == |b|;
    forall i | 0 <= i < |a|
      ensures a[i] == b[i]
    {
      assert KeyBodies(a)[i] == KeyBodies(b)[i];
      KeyInjective(a[i], b[i]);
    }
  }

  lemma OrderedKeysInjective(n: nat, a: seq<OrderedKey>, b: seq<OrderedKey>)
    requires Repeated(n, OrderedKeyBodies(a)) == Repeated(n, OrderedKeyBodies(b))
    ensures a == b
  {
    hide EncodeOrderedKey, Repeated;
    RepeatedInjective(n, OrderedKeyBodies(a), OrderedKeyBodies(b));
    assert |a| == |OrderedKeyBodies(a)| == |b|;
    forall i | 0 <= i < |a|
      ensures a[i] == b[i]
    {
      assert OrderedKeyBodies(a)[i] == OrderedKeyBodies(b)[i];
      OrderedKeyInjective(a[i], b[i]);
    }
  }

  lemma ValuesInjective(n: nat, a: seq<Value>, b: seq<Value>)
    requires Repeated(n, ValueBodies(a)) == Repeated(n, ValueBodies(b))
    ensures a == b
  {
    hide EncodeValue, Repeated;
    RepeatedInjective(n, ValueBodies(a), ValueBodies(b));
    assert |a| == |ValueBodies(a)| == |b|;
    forall i | 0 <= i < |a|
      ensures a[i] == b[i]
    {
      assert ValueBodies(a)[i] == ValueBodies(b)[i];
      ValueInjective(a[i], b[i]);
    }
  }

  lemma OrderedValuesInjective(n: nat, a: seq<OrderedValue>, b: seq<OrderedValue>)
    requires Repeated(n, OrderedValueBodies(a)) == Repeated(n, OrderedValueBodies(b))
    ensures a == b
  {
    hide EncodeOrderedValue, Repeated;
    RepeatedInjective(n, OrderedValueBodies(a), OrderedValueBodies(b));
    assert |a| == |OrderedValueBodies(a)| == |b|;
    forall i | 0 <= i < |a|
      ensures a[i] == b[i]
    {
      assert OrderedValueBodies(a)[i] == OrderedValueBodies(b)[i];
      OrderedValueInjective(a[i], b[i]);
    }
  }

  lemma ListsWithin(l: Lists)
    ensures Within(ListFields(l), 5, 8)
  {
    hide Within, Repeated, KeyBodies, ValueBodies, OrderedKeyBodies, OrderedValueBodies;
    FieldsWithin(5);
    FieldsWithin(6);
    FieldsWithin(7);
    FieldsWithin(8);
    var a, b := Repeated(5, KeyBodies(l.keyUnordered)), Repeated(6, ValueBodies(l.valueUnordered));
    var c, d := Repeated(7, OrderedKeyBodies(l.keyOrdered)), Repeated(8, OrderedValueBodies(l.valueOrdered));
    WithinAppend(a, b, 5, 5, 6);
    WithinAppend(a + b, c, 5, 6, 7);
    WithinAppend(a + b + c, d, 5, 7, 8);
  }

  lemma ListsInjective(l: Lists, m: Lists)
    requires ListFields(l) == ListFields(m)
    ensures l == m
  {
    hide Within, Repeated, KeyBodies, ValueBodies, OrderedKeyBodies, OrderedValueBodies;
    FieldsWithin(5);
    FieldsWithin(6);
    FieldsWithin(7);
    FieldsWithin(8);
    Four(Repeated(5, KeyBodies(l.keyUnordered)), Repeated(6, ValueBodies(l.valueUnordered)),
         Repeated(7, OrderedKeyBodies(l.keyOrdered)), Repeated(8, OrderedValueBodies(l.valueOrdered)),
         Repeated(5, KeyBodies(m.keyUnordered)), Repeated(6, ValueBodies(m.valueUnordered)),
         Repeated(7, OrderedKeyBodies(m.keyOrdered)), Repeated(8, OrderedValueBodies(m.valueOrdered)), 5);
    KeysInjective(5, l.keyUnordered, m.keyUnordered);
    ValuesInjective(6, l.valueUnordered, m.valueUnordered);
    OrderedKeysInjective(7, l.keyOrdered, m.keyOrdered);
    OrderedValuesInjective(8, l.valueOrdered, m.valueOrdered);
  }

  // ---------- requests ----------

  predicate SameMessage(a: Request, b: Request) {
    && a.CreateContainer? == b.CreateContainer? && a.AddTo? == b.AddTo?
    && a.AddToVal? == b.AddToVal? && a.RemoveFrom? == b.RemoveFrom?
  }

  /** Two requests of one message type with the same bytes are the same request. */
  lemma RequestsAreRecovered(a: Request, b: Request)
    requires SameMessage(a, b) && EncodeRequest(a) == EncodeRequest(b)
    ensures a == b
  {
    hide Encode, HeaderFields, ItemFields;
    EncodeInjective(HeaderFields(a) + ItemFields(a), HeaderFields(b) + ItemFields(b));
    match a
    case CreateContainer(_, _, _, _, _) => CreateInjective(a, b);
    case AddTo(_, _, _, _, _) => AddInjective(a, b);
    case AddToVal(_, _, _, _, _) => AddToValInjective(a, b);
    case RemoveFrom(_, _, _, _) => RemoveInjective(a, b);
  }

  lemma CreateInjective(a: Request, b: Request)
    requires a.CreateContainer? && b.CreateContainer?
    requires HeaderFields(a) + ItemFields(a) == HeaderFields(b) + ItemFields(b)
    ensures a == b
  {
    hide Within, EncodeKey, Optional, Implicit, OptionalMessage, LockBody, ListFields;
    FieldsWithin(1);
    FieldsWithin(2);
    FieldsWithin(3);
    FieldsWithin(4);
    OptionalsWithin(3, a.ttl, b.ttl);
    var k, n, t, l := [Delimited(1, EncodeKey(a.key))], Implicit(2, a.kind), Optional(3, a.ttl),
                      OptionalMessage(4, LockBody(a.lock));
    var k', n', t', l' := [Delimited(1, EncodeKey(b.key))], Implicit(2, b.kind), Optional(3, b.ttl),
                          OptionalMessage(4, LockBody(b.lock));
    HeaderWithin(k, n, t, l);
    HeaderWithin(k', n', t', l');
    ListsWithin(a.lists);
    ListsWithin(b.lists);
    SplitAt(k + n + t + l, ListFields(a.lists), k' + n' + t' + l', ListFields(b.lists), 4, 8);
    ListsInjective(a.lists, b.lists);
    Four(k, n, t, l, k', n', t', l', 1);
    OneInjective(1, EncodeKey(a.key), EncodeKey(b.key));
    KeyInjective(a.key, b.key);
    ImplicitInjective(2, a.kind, b.kind);
    OptionalInjective(3, a.ttl, b.ttl);
    BodyInjective(4, LockBody(a.lock), LockBody(b.lock));
    LockInjective(a.lock, b.lock);
  }

  lemma HeaderWithin(a: seq<Field>, b: seq<Field>, c: seq<Field>, d: seq<Field>)
    requires Within(a, 1, 1) && Within(b, 2, 2) && Within(c, 3, 3) && Within(d, 4, 4)
    ensures Within(a + b + c + d, 0, 4)
  {
    hide Within;
    WithinAppend(a, b, 1, 1, 2);
    WithinAppend(a + b, c, 1, 2, 3);
    WithinAppend(a + b + c, d, 1, 3, 4);
    WithinLess(a + b + c + d);
  }

  lemma WithinLess(fields: seq<Field>)
    requires Within(fields, 1, 4)
    ensures Within(fields, 0, 4)
  {
  }

  lemma AddInjective(a: Request, b: Request)
    requires a.AddTo? && b.AddTo?
    requires HeaderFields(a) + ItemFields(a) == HeaderFields(b) + ItemFields(b)
    ensures a == b
  {
    hide Within, EncodeKey, Optional, ListFields;
    FieldsWithin(1);
    FieldsWithin(2);
    FieldsWithin(3);
    FieldsWithin(4);
    OptionalsWithin(2, a.addKind, b.addKind);
    OptionalsWithin(3, a.ttl, b.ttl);
    OptionalsWithin(4, a.pos, b.pos);
    var k, n, t, p := [Delimited(1, EncodeKey(a.key))], Optional(2, a.addKind), Optional(3, a.ttl), Optional(4, a.pos);
    var k', n', t', p' := [Delimited(1, EncodeKey(b.key))], Optional(2, b.addKind), Optional(3, b.ttl),
                          Optional(4, b.pos);
    HeaderWithin(k, n, t, p);
    HeaderWithin(k', n', t', p');
    ListsWithin(a.lists);
    ListsWithin(b.lists);
    SplitAt(k + n + t + p, ListFields(a.lists), k' + n' + t' + p', ListFields(b.lists), 4, 8);
    ListsInjective(a.lists, b.lists);
    Four(k, n, t, p, k', n', t', p', 1);
    OneInjective(1, EncodeKey(a.key), EncodeKey(b.key));
    KeyInjective(a.key, b.key);
    OptionalInjective(2, a.addKind, b.addKind);
    OptionalInjective(3, a.ttl, b.ttl);
    OptionalInjective(4, a.pos, b.pos);
  }

  lemma AddToValInjective(a: Request, b: Request)
    requires a.AddToVal? && b.AddToVal?
    requires HeaderFields(a) + ItemFields(a) == HeaderFields(b) + ItemFields(b)
    ensures a == b
  {
    hide Within, EncodeKey, EncodeValue, Optional, Implicit, Repeated, ValueBodies;
    FieldsWithin(1);
    FieldsWithin(2);
    FieldsWithin(3);
    FieldsWithin(4);
    FieldsWithin(5);
    OptionalsWithin(2, a.ttl, b.ttl);
    var k, t, i, p := [Delimited(1, EncodeKey(a.key))], Optional(2, a.ttl), Implicit(3, Bool(a.isBefore)),
                      [Delimited(4, EncodeValue(a.pivot))];
    var k', t', i', p' := [Delimited(1, EncodeKey(b.key))], Optional(2, b.ttl), Implicit(3, Bool(b.isBefore)),
                          [Delimited(4, EncodeValue(b.pivot))];
    Five(k, t, i, p, Repeated(5, ValueBodies(a.value)), k', t', i', p', Repeated(5, ValueBodies(b.value)), 1);
    OneInjective(1, EncodeKey(a.key), EncodeKey(b.key));
    KeyInjective(a.key, b.key);
    OptionalInjective(2, a.ttl, b.ttl);
    ImplicitInjective(3, Bool(a.isBefore), Bool(b.isBefore));
    OneInjective(4, EncodeValue(a.pivot), EncodeValue(b.pivot));
    ValueInjective(a.pivot, b.pivot);
    ValuesInjective(5, a.value, b.value);
  }

  lemma RemoveFields(r: Request)
    requires r.RemoveFrom?
    ensures HeaderFields(r) + ItemFields(r)
            == [Delimited(1, EncodeKey(r.key))] + Optional(2, r.addKind) + Repeated(3, ValueBodies(r.values))
               + Repeated(4, KeyBodies(r.keys))
  {
    hide EncodeKey, Optional, Repeated, ValueBodies, KeyBodies;
  }

  lemma RemoveInjective(a: Request, b: Request)
    requires a.RemoveFrom? && b.RemoveFrom?
    requires HeaderFields(a) + ItemFields(a) == HeaderFields(b) + ItemFields(b)
    ensures a == b
  {
    hide Within, EncodeKey, Optional, Repeated, ValueBodies, KeyBodies, HeaderFields, ItemFields;
    FieldsWithin(1);
    FieldsWithin(2);
    FieldsWithin(3);
    FieldsWithin(4);
    OptionalsWithin(2, a.addKind, b.addKind);
    var k, n, v, w := [Delimited(1, EncodeKey(a.key))], Optional(2, a.addKind), Repeated(3, ValueBodies(a.values)),
                      Repeated(4, KeyBodies(a.keys));
    var k', n', v', w' := [Delimited(1, EncodeKey(b.key))], Optional(2, b.addKind),
                          Repeated(3, ValueBodies(b.values)), Repeated(4, KeyBodies(b.keys));
    RemoveFields(a);
    RemoveFields(b);
    Four(k, n, v, w, k', n', v', w', 1);
    OneInjective(1, EncodeKey(a.key), EncodeKey(b.key));
    KeyInjective(a.key, b.key);
    OptionalInjective(2, a.addKind, b.addKind);
    ValuesInjective(3, a.values, b.values);
    KeysInjective(4, a.keys, b.keys);
  }
}
