/** What a decoded batch holds, read off its fields: which key leads to which value, and in which order. */
module Decoding {
  import opened Basics
  import opened Wire
  import opened Messages
  import opened Payloads
  import opened Streams
  import opened StreamTheorems

  /** The bytes of a payload decode to this data. */
  predicate Unpacks(gz: Gzip, payload: Payload, compression: Option<CompressedInfo>, data: Bytes) {
    Unpack(gz, payload, compression) == Success(data)
  }

  /** An unordered key or value; an ordered one has an order, zero when it is not sent. */
  predicate IsPlain(gz: Gzip, payload: Payload, compression: Option<CompressedInfo>, e: Element) {
    Unpacks(gz, payload, compression, e.value) && e.order == None
  }

  predicate IsOrdered(gz: Gzip, payload: Payload, compression: Option<CompressedInfo>, order: Option<uint64>,
                      e: Element)
  {
    && Unpacks(gz, payload, compression, e.value)
    && e.order == Some(if order.Some? then order.value else 0)
  }

  /** Element e is key number i of the batch; ordered keys win over unordered ones. */
  predicate IsKey(gz: Gzip, b: Batch, i: nat, e: Element) {
    if b.keyOrdered != [] then
      && i < |b.keyOrdered|
      && IsOrdered(gz, b.keyOrdered[i].payload, b.keyOrdered[i].compression, b.keyOrdered[i].order, e)
    else
      i < |b.keyUnordered| && IsPlain(gz, b.keyUnordered[i].payload, b.keyUnordered[i].compression, e)
  }

  predicate IsValue(gz: Gzip, b: Batch, i: nat, e: Element) {
    i < |b.valueUnordered| && IsPlain(gz, b.valueUnordered[i].value, b.valueUnordered[i].compression, e)
  }

  predicate IsOrderedValue(gz: Gzip, b: Batch, i: nat, e: Element) {
    && i < |b.valueOrdered|
    && IsOrdered(gz, b.valueOrdered[i].value, b.valueOrdered[i].compression, b.valueOrdered[i].order, e)
  }

  lemma {:induction false} TraverseAt<A, B>(f: A -> Result<B, StreamError>, xs: seq<A>)
    ensures Traverse(f, xs).Success? <==> forall i :: 0 <= i < |xs| ==> f(xs[i]).Success?
    ensures Traverse(f, xs).Success? ==>
              && |Traverse(f, xs).value| == |xs|
              && forall i :: 0 <= i < |xs| ==> f(xs[i]) == Success(Traverse(f, xs).value[i])
  {
    if xs != [] {
      TraverseAt(f, xs[..|xs| - 1]);
    }
  }

  /** The decoded pairs of a keyed batch: key i and value i of its fields. */
  lemma PairsDecoded(gz: Gzip, b: Batch) returns (pairs: seq<Pair>)
    requires IsKeyed(b) && DecodeBatch(gz, b).Success?
    ensures |pairs| == |b.valueUnordered| == if b.keyOrdered != [] then |b.keyOrdered| else |b.keyUnordered|
    ensures forall i :: 0 <= i < |pairs| ==> IsKey(gz, b, i, pairs[i].0) && IsValue(gz, b, i, pairs[i].1)
    ensures DecodeBatch(gz, b).value == Entries(PutAll(NO_ENTRIES, pairs))
  {
    var f := p => DecodePair(gz, p);
    TraverseAt(f, CodedPairs(b));
    pairs := Traverse(f, CodedPairs(b)).value;
    hide Unpack, PutAll;
    forall i | 0 <= i < |pairs|
      ensures IsKey(gz, b, i, pairs[i].0) && IsValue(gz, b, i, pairs[i].1)
    {
      assert f(CodedPairs(b)[i]) == Success(pairs[i]);
    }
  }

  lemma {:induction false} KeysOfPairs(pairs: seq<Pair>, key: Element)
    ensures key in PutAll(NO_ENTRIES, pairs).values <==> exists i :: 0 <= i < |pairs| && pairs[i].0 == key
  {
    if pairs != [] {
      var n := |pairs| - 1;
      KeysOfPairs(pairs[..n], key);
      if i :| 0 <= i < n && pairs[..n][i].0 == key {
        assert pairs[i].0 == key;
      }
      if i :| 0 <= i < |pairs| && pairs[i].0 == key {
        assert i < n ==> pairs[..n][i].0 == key;
      }
    }
  }

  /** Key number i of the batch decodes to an element that no later key decodes to. */
  ghost predicate LastKey(gz: Gzip, b: Batch, i: nat, key: Element) {
    IsKey(gz, b, i, key) && forall j :: i < j < |b.valueUnordered| ==> !IsKey(gz, b, j, key)
  }

  ghost predicate SomeKey(gz: Gzip, b: Batch, key: Element) {
    exists i: nat :: IsKey(gz, b, i, key)
  }

  /**
   A keyed batch decodes to the dictionary that maps every key to the value beside its last
   occurrence, and has no other keys.
   */
  lemma KeyedBatch(gz: Gzip, b: Batch)
    requires b.keyOrdered != [] || b.keyUnordered != []
    requires DecodeBatch(gz, b).Success?
    ensures |b.valueUnordered| == if b.keyOrdered != [] then |b.keyOrdered| else |b.keyUnordered|
    ensures var c := DecodeBatch(gz, b).value;
            && c.Entries?
            && (forall key :: key in c.dict.values <==> SomeKey(gz, b, key))
            && (forall i: nat, key :: LastKey(gz, b, i, key) ==>
                  key in c.dict.values && IsValue(gz, b, i, c.dict.values[key]))
  {
    var pairs := PairsDecoded(gz, b);
    hide DecodeBatch, Unpack, PutAll;
    var d := PutAll(NO_ENTRIES, pairs);
    forall key
      ensures key in d.values <==> SomeKey(gz, b, key)
    {
      KeysOfPairs(pairs, key);
      if key in d.values {
        var i :| 0 <= i < |pairs| && pairs[i].0 == key;
        assert IsKey(gz, b, i, key);
      }
      if SomeKey(gz, b, key) {
        var i: nat :| IsKey(gz, b, i, key);
        assert pairs[i].0 == key;
      }
    }
    forall i: nat, key | LastKey(gz, b, i, key)
      ensures key in d.values && IsValue(gz, b, i, d.values[key])
    {
      assert pairs[i].0 == key;
      assert forall j :: i < j < |pairs| ==> IsKey(gz, b, j, pairs[j].0);
      LastWriteWins(pairs, i);
    }
  }

  /** The dictionary lists its keys once each, in the order in which they first occur. */
  lemma {:induction false} FirstOccurrenceOrder(pairs: seq<Pair>, n: nat)
    requires n <= |pairs|
    ensures PutAll(NO_ENTRIES, pairs[..n]).order <= PutAll(NO_ENTRIES, pairs).order
    ensures var order := PutAll(NO_ENTRIES, pairs).order;
            && (forall i, j :: 0 <= i < j < |order| ==> order[i] != order[j])
            && (pairs != [] && (forall i :: 0 <= i < |pairs| - 1 ==> pairs[i].0 != pairs[|pairs| - 1].0) ==>
                  order == PutAll(NO_ENTRIES, pairs[..|pairs| - 1]).order + [pairs[|pairs| - 1].0])
    decreases |pairs|
  {
    if pairs == [] {
      assert pairs[..n] == pairs;
    } else {
      var m := |pairs| - 1;
      var before := PutAll(NO_ENTRIES, pairs[..m]);
      FirstOccurrenceOrder(pairs[..m], if n <= m then n else m);
      assert n <= m ==> pairs[..m][..n] == pairs[..n];
      assert n == m + 1 ==> pairs[..n] == pairs;
      PutAllIsDict(NO_ENTRIES, pairs[..m]);
      KeysOfPairs(pairs[..m], pairs[m].0);
    }
  }

  /** A batch without keys decodes to the list of its values: of the ordered ones if there are any. */
  lemma UnkeyedBatch(gz: Gzip, b: Batch)
    requires b.keyOrdered == [] && b.keyUnordered == [] && DecodeBatch(gz, b).Success?
    ensures var c := DecodeBatch(gz, b).value;
            && c.Values?
            && (b.valueOrdered != [] ==>
                  && |c.xs| == |b.valueOrdered|
                  && forall i :: 0 <= i < |c.xs| ==> IsOrderedValue(gz, b, i, c.xs[i]))
            && (b.valueOrdered == [] ==>
                  && |c.xs| == |b.valueUnordered|
                  && forall i :: 0 <= i < |c.xs| ==> IsValue(gz, b, i, c.xs[i]))
  {
    var f := c => DecodeOne(gz, c);
    TraverseAt(f, CodedList(b));
    var xs := Traverse(f, CodedList(b)).value;
    hide Unpack;
    forall i | 0 <= i < |xs|
      ensures b.valueOrdered != [] ==> IsOrderedValue(gz, b, i, xs[i])
      ensures b.valueOrdered == [] ==> IsValue(gz, b, i, xs[i])
    {
      assert f(CodedList(b)[i]) == Success(xs[i]);
    }
  }

  /** Every payload among those that are read decodes. */
  ghost predicate AllUnpack(gz: Gzip, b: Batch) {
    if b.keyOrdered != [] then
      && (forall k <- b.keyOrdered :: Unpack(gz, k.payload, k.compression).Success?)
      && (forall v <- b.valueUnordered :: Unpack(gz, v.value, v.compression).Success?)
    else if b.keyUnordered != [] then
      && (forall k <- b.keyUnordered :: Unpack(gz, k.payload, k.compression).Success?)
      && (forall v <- b.valueUnordered :: Unpack(gz, v.value, v.compression).Success?)
    else if b.valueOrdered != [] then
      forall v <- b.valueOrdered :: Unpack(gz, v.value, v.compression).Success?
    else
      forall v <- b.valueUnordered :: Unpack(gz, v.value, v.compression).Success?
  }

  /** A batch decodes exactly when its keys, if any, are paired with values and all its payloads decode. */
  lemma BatchDecodesExactly(gz: Gzip, b: Batch)
    ensures DecodeBatch(gz, b).Success? <==>
              && (b.keyOrdered != [] ==> |b.keyOrdered| == |b.valueUnordered|)
              && (b.keyOrdered == [] && b.keyUnordered != [] ==> |b.keyUnordered| == |b.valueUnordered|)
              && AllUnpack(gz, b)
    ensures DecodeBatch(gz, b) == Result<Collected, StreamError>.Failure(Unpaired) <==>
              || (b.keyOrdered != [] && |b.keyOrdered| != |b.valueUnordered|)
              || (b.keyOrdered == [] && b.keyUnordered != [] && |b.keyUnordered| != |b.valueUnordered|)
  {
    if !IsKeyed(b) {
      TraverseAt(c => DecodeOne(gz, c), CodedList(b));
      ListUnpacks(gz, b);
      UnpairedIsNoPayload(gz, b);
    } else if |CodedKeys(b)| == |b.valueUnordered| {
      TraverseAt(p => DecodePair(gz, p), CodedPairs(b));
      PairsUnpack(gz, b);
      UnpairedIsNoPayload(gz, b);
    }
  }

  lemma ListUnpacks(gz: Gzip, b: Batch)
    requires !IsKeyed(b)
    ensures AllUnpack(gz, b) <==> forall i :: 0 <= i < |CodedList(b)| ==> DecodeOne(gz, CodedList(b)[i]).Success?
  {
    hide Unpack;
    var coded := CodedList(b);
    if AllUnpack(gz, b) {
      forall i | 0 <= i < |coded|
        ensures DecodeOne(gz, coded[i]).Success?
      {
        assert b.valueOrdered != [] ==> b.valueOrdered[i] in b.valueOrdered;
        assert b.valueOrdered == [] ==> b.valueUnordered[i] in b.valueUnordered;
      }
    } else if b.valueOrdered != [] {
      var i :| 0 <= i < |coded| && !Unpack(gz, b.valueOrdered[i].value, b.valueOrdered[i].compression).Success?;
      assert !DecodeOne(gz, coded[i]).Success?;
    } else {
      var i :| 0 <= i < |coded| && !Unpack(gz, b.valueUnordered[i].value, b.valueUnordered[i].compression).Success?;
      assert !DecodeOne(gz, coded[i]).Success?;
    }
  }

  lemma PairsUnpack(gz: Gzip, b: Batch)
    requires IsKeyed(b) && |CodedKeys(b)| == |b.valueUnordered|
    ensures AllUnpack(gz, b) <==> forall i :: 0 <= i < |CodedPairs(b)| ==> DecodePair(gz, CodedPairs(b)[i]).Success?
  {
    hide Unpack;
    var coded := CodedPairs(b);
    if AllUnpack(gz, b) {
      forall i | 0 <= i < |coded|
        ensures DecodePair(gz, coded[i]).Success?
      {
        assert b.keyOrdered != [] ==> b.keyOrdered[i] in b.keyOrdered;
        assert b.keyOrdered == [] ==> b.keyUnordered[i] in b.keyUnordered;
        assert b.valueUnordered[i] in b.valueUnordered;
      }
    }
    if forall i :: 0 <= i < |coded| ==> DecodePair(gz, coded[i]).Success? {
      forall i | 0 <= i < |coded|
        ensures b.keyOrdered != [] ==> Unpack(gz, b.keyOrdered[i].payload, b.keyOrdered[i].compression).Success?
        ensures b.keyOrdered == [] ==> Unpack(gz, b.keyUnordered[i].payload, b.keyUnordered[i].compression).Success?
        ensures Unpack(gz, b.valueUnordered[i].value, b.valueUnordered[i].compression).Success?
      {
        assert DecodePair(gz, coded[i]).Success?;
      }
    }
  }

  lemma UnpairedIsNoPayload(gz: Gzip, b: Batch)
    requires IsKeyed(b) ==> |CodedKeys(b)| == |b.valueUnordered|
    ensures DecodeBatch(gz, b) != Result<Collected, StreamError>.Failure(Unpaired)
  {
    hide Unpack;
    if DecodeBatch(gz, b).Failure? {
      if IsKeyed(b) {
        TraverseError(p => DecodePair(gz, p), CodedPairs(b));
      } else {
        TraverseError(c => DecodeOne(gz, c), CodedList(b));
      }
    }
  }

  lemma {:induction false} TraverseFirst<A, B>(f: A -> Result<B, StreamError>, xs: seq<A>, i: nat)
    requires i < |xs| && f(xs[i]).Failure? && forall j :: 0 <= j < i ==> f(xs[j]).Success?
    ensures Traverse(f, xs) == Failure(f(xs[i]).error)
  {
    var n := |xs| - 1;
    if i < n {
      TraverseFirst(f, xs[..n], i);
    } else {
      TraverseAt(f, xs[..n]);
    }
  }

  /** The first payload that does not unpack is the one reported; of a pair the key is read first. */
  lemma FirstFailure(gz: Gzip, b: Batch, i: nat)
    requires b.keyOrdered == [] && i < |b.keyUnordered| == |b.valueUnordered|
    requires forall j :: 0 <= j < i ==>
               && Unpack(gz, b.keyUnordered[j].payload, b.keyUnordered[j].compression).Success?
               && Unpack(gz, b.valueUnordered[j].value, b.valueUnordered[j].compression).Success?
    ensures var key := Unpack(gz, b.keyUnordered[i].payload, b.keyUnordered[i].compression);
            var value := Unpack(gz, b.valueUnordered[i].value, b.valueUnordered[i].compression);
            && (key.Failure? ==> DecodeBatch(gz, b) == Failure(BadPayload(key.error)))
            && (key.Success? && value.Failure? ==> DecodeBatch(gz, b) == Failure(BadPayload(value.error)))
  {
    hide Unpack;
    var f, coded := p => DecodePair(gz, p), CodedPairs(b);
    assert forall j :: 0 <= j < i ==> f(coded[j]).Success?;
    if f(coded[i]).Failure? {
      TraverseFirst(f, coded, i);
    }
  }

  /** One entry with the key byte 1 and the value byte 2. */
  function OneTwo(): Batch {
    Batch([Key(Payload([1], 1), None, None, None)], [], [Value(Payload([2], 1), None, None, None)], [])
  }

  /** It decodes to the dictionary from the one to the two. */
  lemma OneTwoDecodes(gz: Gzip)
    ensures var one, two := Element([1], None), Element([2], None);
            DecodeBatch(gz, OneTwo()) == Success(Entries(Dict([one], map[one := two])))
  {
    var one, two := Element([1], None), Element([2], None);
    var k, v := Coded(Payload([1], 1), None, None), Coded(Payload([2], 1), None, None);
    assert DecodeOne(gz, k) == Success(one) && DecodeOne(gz, v) == Success(two);
    assert CodedPairs(OneTwo()) == [(k, v)];
    var f := p => DecodePair(gz, p);
    assert f((k, v)) == Success((one, two));
    TraverseOne(f, (k, v));
    PutOne(one, two);
    hide Traverse, PutAll, DecodePair, DecodeOne, CodedPairs;
  }

  // ---------- how a stream ends ----------

  /**
   What the caller gets, for the batches received and an error that ended the stream otherwise:
   the collected result, empty if there was no batch; the error itself if no batch was decoded;
   or the number of decoded batches, the items in them and what they had been collected to.
   */
  lemma OutcomeMeans(gz: Gzip, batches: seq<Batch>, otherwise: Option<StreamError>, r: StreamOutcome)
    requires var f := Fold(gz, batches);
             && (f.error.None? || otherwise.None?)
             && r == Conclude(if otherwise.Some? then f.(error := otherwise) else f)
    ensures r.Collection? <==> Fold(gz, batches).error.None? && otherwise.None?
    ensures r.Collection? ==>
              if batches == [] then r.whole == Values([]) else Fold(gz, batches).result == Some(r.whole)
    ensures r.Failed? ==>
              && r.error == (if otherwise.Some? then otherwise else Fold(gz, batches).error).value
              && (if otherwise.Some? then batches == []
                  else DecodeBatch(gz, batches[0]) == Result<Collected, StreamError>.Failure(r.error))
    ensures r.PartialStream? ==>
              && Some(r.cause) == (if otherwise.Some? then otherwise else Fold(gz, batches).error)
              && 1 <= r.chunks <= |batches| && r.items == Sum(Lengths(gz, batches[..r.chunks]))
              && r.result == Fold(gz, batches).result && r.result.Some?
              && (otherwise.Some? ==> r.chunks == |batches|)
  {
    hide DecodeBatch, Merge;
    if Fold(gz, batches).error.None? {
      FoldCounts(gz, batches);
      assert batches[..|batches|] == batches;
    } else {
      var k := FailureCarriesPrefix(gz, batches);
      FoldCounts(gz, batches[..k]);
      match DecodeBatch(gz, batches[k])
      case Failure(_) =>
      case Success(decoded) =>
        assert batches[..k + 1][..k] == batches[..k];
        LengthsPush(gz, batches, k);
    }
  }

  lemma LengthsPush(gz: Gzip, batches: seq<Batch>, k: nat)
    requires k < |batches| && DecodeBatch(gz, batches[k]).Success?
    ensures Sum(Lengths(gz, batches[..k + 1]))
            == Sum(Lengths(gz, batches[..k])) + |Listing(DecodeBatch(gz, batches[k]).value)|
  {
    hide DecodeBatch;
    assert Lengths(gz, batches[..k + 1])[..k] == Lengths(gz, batches[..k]);
  }
}
