/** Decoding the batches of a response stream and folding them into one list or dictionary. */
module Streams {
  import opened Basics
  import opened Wire
  import opened Errors
  import opened Messages
  import opened Operation
  import opened Payloads

  /** A decoded key or value; `order` is set for the ordered kind, and distinguishes the two. */
  datatype Element = Element(value: Bytes, order: Option<nat>)

  /** An insertion-ordered dictionary. */
  datatype Dict = Dict(order: seq<Element>, values: map<Element, Element>)

  const NO_ENTRIES := Dict([], map[])

  datatype Collected = Values(xs: seq<Element>) | Entries(dict: Dict)

  datatype StreamError = CallFailed(error: Error) | BadPayload(reason: DecodeError) | Unpaired | NotPairs

  datatype Batch = Batch(keyUnordered: seq<Key>, keyOrdered: seq<OrderedKey>,
                         valueUnordered: seq<Value>, valueOrdered: seq<OrderedValue>)

  const EMPTY_BATCH := Batch([], [], [], [])

  // ---------- dictionaries ----------

  type Pair = (Element, Element)

  function Put(d: Dict, key: Element, value: Element): Dict {
    Dict(if key in d.order then d.order else d.order + [key], d.values[key := value])
  }

  function PutAll(d: Dict, pairs: seq<Pair>): Dict {
    if pairs == [] then d
    else
      var n := |pairs| - 1;
      Put(PutAll(d, pairs[..n]), pairs[n].0, pairs[n].1)
  }

  ghost predicate IsDict(d: Dict) {
    forall key :: key in d.order <==> key in d.values
  }

  /** The items of a dictionary in insertion order. */
  function Pairs(d: Dict): (pairs: seq<Pair>)
    requires IsDict(d)
    ensures |pairs| == |d.order|
  {
    seq(|d.order|, i requires 0 <= i < |d.order| => (d.order[i], d.values[d.order[i]]))
  }

  function Keys(pairs: seq<Pair>): (keys: seq<Element>)
    ensures |keys| == |pairs|
  {
    seq(|pairs|, i requires 0 <= i < |pairs| => pairs[i].0)
  }

  function MapOf(pairs: seq<Pair>): map<Element, Element> {
    if pairs == [] then map[]
    else
      var n := |pairs| - 1;
      MapOf(pairs[..n])[pairs[n].0 := pairs[n].1]
  }

  function Extend(order: seq<Element>, keys: seq<Element>): seq<Element> {
    if keys == [] then order
    else
      var before, key := Extend(order, keys[..|keys| - 1]), keys[|keys| - 1];
      if key in before then before else before + [key]
  }

  /** Adding pairs one by one extends the order by the new keys and overrides the values. */
  lemma {:induction false} PutAllIs(d: Dict, pairs: seq<Pair>)
    ensures PutAll(d, pairs) == Dict(Extend(d.order, Keys(pairs)), d.values + MapOf(pairs))
  {
    if pairs == [] {
      assert d.values + map[] == d.values;
    } else {
      var n := |pairs| - 1;
      PutAllIs(d, pairs[..n]);
      assert Keys(pairs)[..n] == Keys(pairs[..n]);
    }
  }

  lemma {:induction false} PutAllAppend(d: Dict, a: seq<Pair>, b: seq<Pair>)
    ensures PutAll(PutAll(d, a), b) == PutAll(d, a + b)
  {
    if b == [] {
      assert a + b == a;
    } else {
      var n := |b| - 1;
      PutAllAppend(d, a, b[..n]);
      assert (a + b)[..|a + b| - 1] == a + b[..n];
    }
  }

  lemma {:induction false} PutAllIsDict(d: Dict, pairs: seq<Pair>)
    requires IsDict(d)
    ensures IsDict(PutAll(d, pairs))
  {
    if pairs != [] {
      PutAllIsDict(d, pairs[..|pairs| - 1]);
    }
  }

  lemma {:induction false} ExtendHas(order: seq<Element>, keys: seq<Element>)
    ensures forall key :: key in Extend(order, keys) <==> key in order || key in keys
  {
    if keys != [] {
      var n := |keys| - 1;
      ExtendHas(order, keys[..n]);
      assert keys == keys[..n] + [keys[n]];
    }
  }

  /** Removing duplicates first makes no difference. */
  lemma {:induction false} ExtendTwice(order: seq<Element>, keys: seq<Element>)
    ensures Extend(order, Extend([], keys)) == Extend(order, keys)
  {
    if keys != [] {
      var n := |keys| - 1;
      var key, before := keys[n], Extend([], keys[..n]);
      ExtendTwice(order, keys[..n]);
      ExtendHas(order, keys[..n]);
      ExtendHas([], keys[..n]);
      if key !in before {
        assert (before + [key])[..|before|] == before;
      }
    }
  }

  lemma {:induction false} MapOfPairs(pairs: seq<Pair>, m: map<Element, Element>)
    requires forall pair <- pairs :: pair.0 in m && m[pair.0] == pair.1
    ensures MapOf(pairs) == map pair <- pairs :: pair.0 := m[pair.0]
  {
    if pairs != [] {
      var n := |pairs| - 1;
      MapOfPairs(pairs[..n], m);
      assert pairs == pairs[..n] + [pairs[n]];
    }
  }

  /** The items of a dictionary give back its values. */
  lemma PairsGiveValues(e: Dict)
    requires IsDict(e)
    ensures Keys(Pairs(e)) == e.order && MapOf(Pairs(e)) == e.values
  {
    MapOfPairs(Pairs(e), e.values);
    forall key | key in e.values
      ensures key in MapOf(Pairs(e))
    {
      var i :| 0 <= i < |e.order| && e.order[i] == key;
      assert Pairs(e)[i] in Pairs(e);
    }
  }

  /** Updating with a dictionary made of pairs is adding the pairs themselves. */
  lemma UpdateIsPutAll(d: Dict, pairs: seq<Pair>)
    ensures IsDict(PutAll(NO_ENTRIES, pairs))
    ensures PutAll(d, Pairs(PutAll(NO_ENTRIES, pairs))) == PutAll(d, pairs)
  {
    hide MapOf, Extend, Pairs, Keys;
    var e := PutAll(NO_ENTRIES, pairs);
    PutAllIsDict(NO_ENTRIES, pairs);
    PutAllIs(NO_ENTRIES, pairs);
    PutAllIs(d, pairs);
    PutAllIs(d, Pairs(e));
    PairsGiveValues(e);
    ExtendTwice(d.order, Keys(pairs));
    assert map[] + MapOf(pairs) == MapOf(pairs);
  }

  /** The value of a key is the last one written for it. */
  lemma {:induction false} LastWriteWins(pairs: seq<Pair>, i: nat)
    requires i < |pairs| && forall j :: i < j < |pairs| ==> pairs[j].0 != pairs[i].0
    ensures var d := PutAll(NO_ENTRIES, pairs);
            pairs[i].0 in d.order && pairs[i].0 in d.values && d.values[pairs[i].0] == pairs[i].1
  {
    var n := |pairs| - 1;
    PutAllIsDict(NO_ENTRIES, pairs);
    if i < n {
      LastWriteWins(pairs[..n], i);
    }
  }

  // ---------- decoding a batch ----------

  /** What decoding needs of a key or value of either kind. */
  datatype Coded = Coded(payload: Payload, compression: Option<CompressedInfo>, order: Option<nat>)

  function OrderOf(order: Option<uint64>): Option<nat> {
    if order.None? then Some(0) else Some(order.value)
  }

  function CodedKeys(b: Batch): seq<Coded> {
    if b.keyOrdered != [] then
      seq(|b.keyOrdered|, i requires 0 <= i < |b.keyOrdered| =>
        Coded(b.keyOrdered[i].payload, b.keyOrdered[i].compression, OrderOf(b.keyOrdered[i].order)))
    else
      seq(|b.keyUnordered|, i requires 0 <= i < |b.keyUnordered| =>
        Coded(b.keyUnordered[i].payload, b.keyUnordered[i].compression, None))
  }

  function PlainValues(b: Batch): (coded: seq<Coded>)
    ensures |coded| == |b.valueUnordered|
  {
    seq(|b.valueUnordered|, i requires 0 <= i < |b.valueUnordered| =>
      Coded(b.valueUnordered[i].value, b.valueUnordered[i].compression, None))
  }

  function OrderedValues(b: Batch): (coded: seq<Coded>)
    ensures |coded| == |b.valueOrdered|
  {
    seq(|b.valueOrdered|, i requires 0 <= i < |b.valueOrdered| =>
      Coded(b.valueOrdered[i].value, b.valueOrdered[i].compression, OrderOf(b.valueOrdered[i].order)))
  }

  predicate IsKeyed(b: Batch) {
    b.keyOrdered != [] || b.keyUnordered != []
  }

  function CodedPairs(b: Batch): seq<(Coded, Coded)>
    requires |CodedKeys(b)| == |PlainValues(b)|
  {
    seq(|CodedKeys(b)|, i requires 0 <= i < |CodedKeys(b)| => (CodedKeys(b)[i], PlainValues(b)[i]))
  }

  function CodedList(b: Batch): seq<Coded> {
    if b.valueOrdered != [] then OrderedValues(b) else PlainValues(b)
  }

  function DecodeOne(gz: Gzip, c: Coded): Result<Element, StreamError> {
    match Unpack(gz, c.payload, c.compression)
    case Success(data) => Success(Element(data, c.order))
    case Failure(reason) => Failure(BadPayload(reason))
  }

  function DecodePair(gz: Gzip, pair: (Coded, Coded)): Result<Pair, StreamError> {
    match DecodeOne(gz, pair.0)
    case Failure(e) => Failure(e)
    case Success(key) =>
      match DecodeOne(gz, pair.1)
      case Failure(e) => Failure(e)
      case Success(value) => Success((key, value))
  }

  /** Decode all, or fail with the first failure. */
  function Traverse<A, B>(f: A -> Result<B, StreamError>, xs: seq<A>): Result<seq<B>, StreamError> {
    if xs == [] then Success([])
    else
      var n := |xs| - 1;
      match Traverse(f, xs[..n])
      case Failure(e) => Failure(e)
      case Success(before) =>
        match f(xs[n])
        case Failure(e) => Failure(e)
        case Success(last) => Success(before + [last])
  }

  lemma {:induction false} TraverseAppend<A, B>(f: A -> Result<B, StreamError>, a: seq<A>, b: seq<A>)
    ensures Traverse(f, a + b)
            == match Traverse(f, a)
               case Failure(e) => Failure(e)
               case Success(before) =>
                 match Traverse(f, b)
                 case Failure(e) => Failure(e)
                 case Success(after) => Success(before + after)
  {
    if b == [] {
      assert a + b == a;
      assert Traverse(f, a).Success? ==> Traverse(f, a).value + [] == Traverse(f, a).value;
    } else {
      var n := |b| - 1;
      TraverseAppend(f, a, b[..n]);
      assert (a + b)[..|a + b| - 1] == a + b[..n] && (a + b)[|a + b| - 1] == b[n];
      if Traverse(f, a).Success? && Traverse(f, b).Success? {
        var before, after, last := Traverse(f, a).value, Traverse(f, b[..n]).value, f(b[n]).value;
        assert before + after + [last] == before + (after + [last]);
      }
    }
  }

  function DecodeList(gz: Gzip, coded: seq<Coded>): Result<Collected, StreamError> {
    match Traverse(c => DecodeOne(gz, c), coded)
    case Failure(e) => Failure(e)
    case Success(xs) => Success(Values(xs))
  }

  function DecodeEntries(gz: Gzip, coded: seq<(Coded, Coded)>): Result<Collected, StreamError> {
    match Traverse(p => DecodePair(gz, p), coded)
    case Failure(e) => Failure(e)
    case Success(pairs) => Success(Entries(PutAll(NO_ENTRIES, pairs)))
  }

  function DecodeBatch(gz: Gzip, b: Batch): Result<Collected, StreamError> {
    if !IsKeyed(b) then DecodeList(gz, CodedList(b))
    else if |CodedKeys(b)| != |b.valueUnordered| then Failure(Unpaired)
    else DecodeEntries(gz, CodedPairs(b))
  }

  function Length(c: Collected): nat {
    match c
    case Values(xs) => |xs|
    case Entries(d) => |d.order|
  }

  // ---------- folding ----------

  ghost predicate Wellformed(c: Collected) {
    c.Entries? ==> IsDict(c.dict)
  }

  /** A list takes the keys of a dictionary; a dictionary takes no list but the empty one. */
  function Merge(result: Option<Collected>, decoded: Collected): Option<Collected>
    requires Wellformed(decoded)
  {
    match (result, decoded)
    case (None, Values(xs)) => Some(decoded)
    case (None, Entries(e)) => Some(Entries(PutAll(NO_ENTRIES, Pairs(e))))
    case (Some(Values(ys)), Values(xs)) => Some(Values(ys + xs))
    case (Some(Values(ys)), Entries(e)) => Some(Values(ys + e.order))
    case (Some(Entries(d)), Entries(e)) => Some(Entries(PutAll(d, Pairs(e))))
    case (Some(Entries(d)), Values(xs)) => if xs == [] then result else None
  }

  datatype Folding = Folding(result: Option<Collected>, chunks: nat, items: nat, error: Option<StreamError>)

  const NOTHING := Folding(None, 0, 0, None)

  lemma DecodedWellformed(gz: Gzip, b: Batch)
    ensures DecodeBatch(gz, b).Success? ==> Wellformed(DecodeBatch(gz, b).value)
  {
    if IsKeyed(b) && DecodeBatch(gz, b).Success? {
      PutAllIsDict(NO_ENTRIES, Traverse(p => DecodePair(gz, p), CodedPairs(b)).value);
    }
  }

  /** One batch: it is counted once it is decoded, even if it then cannot be merged. */
  function Receive(gz: Gzip, f: Folding, b: Batch): Folding {
    match DecodeBatch(gz, b)
    case Failure(e) => f.(error := Some(e))
    case Success(decoded) =>
      DecodedWellformed(gz, b);
      match Merge(f.result, decoded)
      case None => Folding(f.result, f.chunks + 1, f.items + Length(decoded), Some(NotPairs))
      case Some(result) => Folding(Some(result), f.chunks + 1, f.items + Length(decoded), None)
  }

  function Fold(gz: Gzip, batches: seq<Batch>): Folding {
    if batches == [] then NOTHING
    else
      var before := Fold(gz, batches[..|batches| - 1]);
      if before.error.Some? then before else Receive(gz, before, batches[|batches| - 1])
  }

  datatype StreamOutcome =
    | Collection(whole: Collected)
    | Failed(error: StreamError)
    | PartialStream(chunks: nat, items: nat, result: Option<Collected>, cause: StreamError)

  function Conclude(f: Folding): StreamOutcome {
    if f.error.None? then Collection(if f.result.None? then Values([]) else f.result.value)
    else if f.chunks > 0 then PartialStream(f.chunks, f.items, f.result, f.error.value)
    else Failed(f.error.value)
  }

  /**
   `_collect_stream` and the loop of the asynchronous `_stream`. The stream delivers the given
   batches and then ends or breaks; `received` batches were folded before the loop was left.
   */
  method CollectStream(ctx: Context, gz: Gzip, batches: seq<Batch>, broken: Option<Error>)
    returns (r: StreamOutcome, ghost received: nat)
    modifies ctx`now
    ensures ctx.now >= old(ctx.now) && received <= |batches|
    ensures var f := Fold(gz, batches[..received]);
            || (r == Conclude(f) && (f.error.Some? || (received == |batches| && broken.None?)))
            || (received < |batches| && f.error.None? && ctx.deadline.Some? && ctx.now >= ctx.deadline.value
                && r == Conclude(f.(error := Some(CallFailed(DeadlineExceeded)))))
            || (received == |batches| && f.error.None? && broken.Some?
                && r == Conclude(f.(error := Some(CallFailed(broken.value)))))
  {
    hide DecodeBatch, Merge, Length;
    var result: Option<Collected>, chunks: nat, items: nat := None, 0, 0;
    received := 0;
    for i := 0 to |batches|
      invariant ctx.now >= old(ctx.now) && received == i
      invariant Fold(gz, batches[..i]) == Folding(result, chunks, items, None)
    {
      assert batches[..i + 1][..i] == batches[..i];
      var budget := ctx.Remaining(None);
      if budget.Failure? {
        r := Conclude(Folding(result, chunks, items, Some(CallFailed(DeadlineExceeded))));
        return;
      }
      received := i + 1;
      var decoded := DecodeBatch(gz, batches[i]);
      if decoded.Failure? {
        r := Conclude(Folding(result, chunks, items, Some(decoded.error)));
        return;
      }
      DecodedWellformed(gz, batches[i]);
      chunks := chunks + 1;
      items := items + Length(decoded.value);
      var merged := Merge(result, decoded.value);
      if merged.None? {
        r := Conclude(Folding(result, chunks, items, Some(NotPairs)));
        return;
      }
      result := merged;
    }
    assert batches[..|batches|] == batches;
    r := Conclude(Folding(result, chunks, items, if broken.None? then None else Some(CallFailed(broken.value))));
  }

  // ---------- split invariance ----------

  datatype Shape = Mapping | OrderedMapping | PlainList | OrderedList

  predicate IsMapping(shape: Shape) {
    shape.Mapping? || shape.OrderedMapping?
  }

  /** Only the fields of the shape are used, and maps are paired; an empty batch has every shape. */
  predicate OfShape(b: Batch, shape: Shape) {
    match shape
    case Mapping => b.keyOrdered == [] && b.valueOrdered == [] && |b.keyUnordered| == |b.valueUnordered|
    case OrderedMapping => b.keyUnordered == [] && b.valueOrdered == [] && |b.keyOrdered| == |b.valueUnordered|
    case PlainList => b.keyUnordered == [] && b.keyOrdered == [] && b.valueOrdered == []
    case OrderedList => b.keyUnordered == [] && b.keyOrdered == [] && b.valueUnordered == []
  }

  function Join(a: Batch, b: Batch): Batch {
    Batch(a.keyUnordered + b.keyUnordered, a.keyOrdered + b.keyOrdered,
          a.valueUnordered + b.valueUnordered, a.valueOrdered + b.valueOrdered)
  }

  function Concat(batches: seq<Batch>): Batch {
    if batches == [] then EMPTY_BATCH else Join(Concat(batches[..|batches| - 1]), batches[|batches| - 1])
  }

  /** Decoding two batches one after the other and merging, with the first failure if there is one. */
  function DecodeBoth(gz: Gzip, a: Batch, b: Batch): Result<Collected, StreamError> {
    match DecodeBatch(gz, a)
    case Failure(e) => Failure(e)
    case Success(x) =>
      match DecodeBatch(gz, b)
      case Failure(e) => Failure(e)
      case Success(y) =>
        DecodedWellformed(gz, b);
        match Merge(Some(x), y)
        case None => Failure(NotPairs)
        case Some(z) => Success(z)
  }

  lemma JoinLists(gz: Gzip, a: seq<Coded>, b: seq<Coded>)
    ensures DecodeList(gz, a + b)
            == match DecodeList(gz, a)
               case Failure(e) => Failure(e)
               case Success(x) =>
                 match DecodeList(gz, b)
                 case Failure(e) => Failure(e)
                 case Success(y) => Success(Values(x.xs + y.xs))
  {
    TraverseAppend(c => DecodeOne(gz, c), a, b);
  }

  lemma JoinEntries(gz: Gzip, a: seq<(Coded, Coded)>, b: seq<(Coded, Coded)>)
    ensures DecodeEntries(gz, b).Success? ==> Wellformed(DecodeEntries(gz, b).value)
    ensures DecodeEntries(gz, a + b)
            == match DecodeEntries(gz, a)
               case Failure(e) => Failure(e)
               case Success(x) =>
                 match DecodeEntries(gz, b)
                 case Failure(e) => Failure(e)
                 case Success(y) => Success(Entries(PutAll(x.dict, Pairs(y.dict))))
  {
    var f := p => DecodePair(gz, p);
    TraverseAppend(f, a, b);
    if Traverse(f, a).Success? && Traverse(f, b).Success? {
      var p, q := Traverse(f, a).value, Traverse(f, b).value;
      UpdateIsPutAll(PutAll(NO_ENTRIES, p), q);
      PutAllAppend(NO_ENTRIES, p, q);
    } else if Traverse(f, b).Success? {
      UpdateIsPutAll(NO_ENTRIES, Traverse(f, b).value);
    }
  }

  lemma JoinMappings(a: Batch, b: Batch, shape: Shape)
    requires OfShape(a, shape) && OfShape(b, shape) && IsMapping(shape) && a != EMPTY_BATCH
    ensures var ab := Join(a, b);
            && OfShape(ab, shape) && IsKeyed(a) && IsKeyed(ab) && (IsKeyed(b) <==> b != EMPTY_BATCH)
            && CodedList(EMPTY_BATCH) == []
            && |CodedKeys(a)| == |a.valueUnordered| && |CodedKeys(b)| == |b.valueUnordered|
            && |CodedKeys(ab)| == |ab.valueUnordered|
            && CodedPairs(ab) == CodedPairs(a) + CodedPairs(b)
            && (b == EMPTY_BATCH ==> CodedPairs(b) == [])
  {
    var ab := Join(a, b);
    assert CodedKeys(ab) == CodedKeys(a) + CodedKeys(b);
    assert PlainValues(ab) == PlainValues(a) + PlainValues(b);
  }

  lemma JoinListings(a: Batch, b: Batch, shape: Shape)
    requires OfShape(a, shape) && OfShape(b, shape) && !IsMapping(shape)
    ensures var ab := Join(a, b);
            && OfShape(ab, shape) && !IsKeyed(a) && !IsKeyed(b) && !IsKeyed(ab)
            && CodedList(ab) == CodedList(a) + CodedList(b)
  {
  }

  lemma NothingDecoded(gz: Gzip)
    ensures DecodeList(gz, []) == Success(Values([]))
    ensures DecodeEntries(gz, []) == Success(Entries(NO_ENTRIES)) && Pairs(NO_ENTRIES) == []
    ensures forall d :: PutAll(d, []) == d
  {
  }

  lemma ListsDecode(gz: Gzip, coded: seq<Coded>)
    ensures DecodeList(gz, coded).Success? ==> DecodeList(gz, coded).value.Values?
  {
  }

  lemma EntriesDecode(gz: Gzip, coded: seq<(Coded, Coded)>)
    ensures DecodeEntries(gz, coded).Success? ==> DecodeEntries(gz, coded).value.Entries?
  {
  }

  lemma JoinDecodes(gz: Gzip, a: Batch, b: Batch, shape: Shape)
    requires OfShape(a, shape) && OfShape(b, shape)
    requires IsMapping(shape) ==> a != EMPTY_BATCH
    ensures OfShape(Join(a, b), shape)
    ensures DecodeBatch(gz, Join(a, b)) == DecodeBoth(gz, a, b)
  {
    hide CodedPairs, CodedKeys, CodedList, DecodeList, DecodeEntries, OfShape, IsKeyed, PutAll, Pairs, Join;
    NothingDecoded(gz);
    if IsMapping(shape) {
      JoinMappings(a, b, shape);
      JoinEntries(gz, CodedPairs(a), CodedPairs(b));
      EntriesDecode(gz, CodedPairs(a));
      EntriesDecode(gz, CodedPairs(b));
    } else {
      JoinListings(a, b, shape);
      JoinLists(gz, CodedList(a), CodedList(b));
      ListsDecode(gz, CodedList(a));
      ListsDecode(gz, CodedList(b));
    }
  }
}
