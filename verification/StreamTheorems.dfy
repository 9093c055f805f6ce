/** What collecting a stream returns does not depend on how the server split it, and when it does. */
module StreamTheorems {
  import opened Basics
  import opened Messages
  import opened Payloads
  import opened Streams

  ghost predicate AllOfShape(batches: seq<Batch>, shape: Shape) {
    forall b <- batches :: OfShape(b, shape)
  }

  ghost predicate NoneFilled(batches: seq<Batch>) {
    forall i :: 0 <= i < |batches| ==> batches[i] == EMPTY_BATCH
  }

  lemma ConcatOne(b: Batch)
    ensures Concat([b]) == b
  {
    assert [b][..0] == [];
    assert Join(EMPTY_BATCH, b) == b;
  }

  lemma JoinShape(a: Batch, b: Batch, shape: Shape)
    requires OfShape(a, shape) && OfShape(b, shape)
    ensures OfShape(Join(a, b), shape) && (Join(a, b) == EMPTY_BATCH <==> a == EMPTY_BATCH && b == EMPTY_BATCH)
  {
  }

  lemma {:induction false} ConcatShape(batches: seq<Batch>, shape: Shape)
    requires AllOfShape(batches, shape)
    ensures OfShape(Concat(batches), shape)
    ensures Concat(batches) == EMPTY_BATCH <==> NoneFilled(batches)
  {
    if batches != [] {
      var n := |batches| - 1;
      assert batches == batches[..n] + [batches[n]];
      assert forall b :: b in batches <==> b in batches[..n] || b == batches[n];
      ConcatShape(batches[..n], shape);
      JoinShape(Concat(batches[..n]), batches[n], shape);
    } else {
      assert OfShape(EMPTY_BATCH, shape);
    }
  }

  /** The first batch becomes the result as it is. */
  lemma MergeFirst(gz: Gzip, b: Batch)
    requires DecodeBatch(gz, b).Success?
    ensures Wellformed(DecodeBatch(gz, b).value)
    ensures Merge(None, DecodeBatch(gz, b).value) == Some(DecodeBatch(gz, b).value)
  {
    DecodedWellformed(gz, b);
    if IsKeyed(b) {
      UpdateIsPutAll(NO_ENTRIES, Traverse(p => DecodePair(gz, p), CodedPairs(b)).value);
    }
  }

  function ErrorOf<T>(r: Result<T, StreamError>): Option<StreamError> {
    if r.Success? then None else Some(r.error)
  }

  /**
   Folding batches of one shape is decoding their concatenation, down to the first error: lists
   are concatenated and maps updated. For maps the first batch must not be empty.
   */
  lemma {:induction false} FoldIsDecode(gz: Gzip, batches: seq<Batch>, shape: Shape)
    requires batches != [] && AllOfShape(batches, shape)
    requires IsMapping(shape) ==> batches[0] != EMPTY_BATCH
    ensures var f, whole := Fold(gz, batches), DecodeBatch(gz, Concat(batches));
            && f.error == ErrorOf(whole)
            && (whole.Success? ==> f.result == Some(whole.value))
    decreases |batches|
  {
    hide DecodeBatch, Merge, Length, OfShape;
    var n := |batches| - 1;
    var last := batches[n];
    if n == 0 {
      assert batches == [last] && batches[..0] == [];
      ConcatOne(last);
      if DecodeBatch(gz, last).Success? {
        MergeFirst(gz, last);
      }
    } else {
      var before := batches[..n];
      FoldIsDecode(gz, before, shape);
      ConcatShape(before, shape);
      assert before[0] == batches[0] && before[0] in before;
      JoinDecodes(gz, Concat(before), last, shape);
    }
  }

  /** Two splits of the same list or map give the same result, or fail with the same error. */
  lemma SplitInvariance(gz: Gzip, a: seq<Batch>, b: seq<Batch>, shape: Shape)
    requires AllOfShape(a, shape) && AllOfShape(b, shape) && Concat(a) == Concat(b)
    requires a != [] && b != [] && (IsMapping(shape) ==> a[0] != EMPTY_BATCH && b[0] != EMPTY_BATCH)
    ensures Fold(gz, a).error == Fold(gz, b).error
    ensures Fold(gz, a).error.None? ==> Conclude(Fold(gz, a)) == Conclude(Fold(gz, b))
  {
    FoldIsDecode(gz, a, shape);
    FoldIsDecode(gz, b, shape);
  }

  // ---------- the first batch decides the kind of the result ----------

  function Listing(c: Collected): seq<Element> {
    match c
    case Values(xs) => xs
    case Entries(d) => d.order
  }

  function Listings(gz: Gzip, batches: seq<Batch>): seq<Element> {
    if batches == [] then []
    else
      var n := |batches| - 1;
      Listings(gz, batches[..n])
      + match DecodeBatch(gz, batches[n]) case Success(c) => Listing(c) case Failure(_) => []
  }

  lemma {:induction false} TraverseError<A, B>(f: A -> Result<B, StreamError>, xs: seq<A>)
    requires Traverse(f, xs).Failure?
    ensures exists i :: 0 <= i < |xs| && f(xs[i]) == Failure(Traverse(f, xs).error)
  {
    var n := |xs| - 1;
    if Traverse(f, xs[..n]).Failure? {
      TraverseError(f, xs[..n]);
      var i :| 0 <= i < n && f(xs[..n][i]) == Failure(Traverse(f, xs).error);
      assert f(xs[i]) == Failure(Traverse(f, xs).error);
    } else {
      assert f(xs[n]) == Failure(Traverse(f, xs).error);
    }
  }

  /** Decoding a batch fails for a payload or for unpaired keys, never for its kind. */
  lemma DecodingErrors(gz: Gzip, b: Batch)
    ensures DecodeBatch(gz, b).Failure? ==> DecodeBatch(gz, b).error.BadPayload? || DecodeBatch(gz, b).error.Unpaired?
  {
    if DecodeBatch(gz, b).Failure? && DecodeBatch(gz, b).error != Unpaired {
      if IsKeyed(b) {
        TraverseError(p => DecodePair(gz, p), CodedPairs(b));
      } else {
        TraverseError(c => DecodeOne(gz, c), CodedList(b));
      }
    }
  }

  /** A result that starts as a list stays one, and receives only the keys of later map batches. */
  lemma {:induction false} ListTakesKeys(gz: Gzip, batches: seq<Batch>)
    requires batches != [] && DecodeBatch(gz, batches[0]).Success? && DecodeBatch(gz, batches[0]).value.Values?
    ensures Fold(gz, batches).error.None? ==> Fold(gz, batches).result == Some(Values(Listings(gz, batches)))
    ensures Fold(gz, batches).error != Some(NotPairs)
    decreases |batches|
  {
    hide DecodeBatch, Length;
    var n := |batches| - 1;
    var last := batches[n];
    DecodingErrors(gz, last);
    if n == 0 {
      assert batches == [last] && batches[..0] == [] && Listings(gz, batches[..0]) == [];
      var xs := DecodeBatch(gz, last).value.xs;
      assert Fold(gz, batches).result == Some(Values(xs)) && [] + xs == xs;
    } else {
      ListTakesKeys(gz, batches[..n]);
    }
  }

  lemma {:induction false} AllEmpty(gz: Gzip, batches: seq<Batch>)
    requires NoneFilled(batches)
    ensures Fold(gz, batches).error.None? && Conclude(Fold(gz, batches)) == Collection(Values([]))
    ensures Fold(gz, batches).result.Some? ==> Fold(gz, batches).result.value == Values([])
    decreases |batches|
  {
    assert CodedList(EMPTY_BATCH) == [] && DecodeBatch(gz, EMPTY_BATCH) == Success(Values([]));
    if batches != [] {
      var none: seq<Element> := [];
      assert none + none == none;
      AllEmpty(gz, batches[..|batches| - 1]);
    }
  }

  lemma KeyedIsEntries(gz: Gzip, b: Batch, shape: Shape)
    requires OfShape(b, shape) && IsMapping(shape) && DecodeBatch(gz, b).Success?
    ensures DecodeBatch(gz, b).value.Entries? <==> b != EMPTY_BATCH
    ensures b == EMPTY_BATCH ==> DecodeBatch(gz, b).value == Values([])
  {
    assert CodedList(EMPTY_BATCH) == [];
  }

  lemma EmptyDecodes(gz: Gzip)
    ensures DecodeBatch(gz, EMPTY_BATCH) == Success(Values([]))
  {
    assert CodedList(EMPTY_BATCH) == [];
  }

  // ---------- counters and failures ----------

  function Lengths(gz: Gzip, batches: seq<Batch>): (lengths: seq<nat>)
    ensures |lengths| == |batches|
  {
    seq(|batches|, i requires 0 <= i < |batches| =>
      match DecodeBatch(gz, batches[i]) case Success(c) => Length(c) case Failure(_) => 0)
  }

  /** Without an error every batch has been counted, and every item of every batch. */
  lemma {:induction false} FoldCounts(gz: Gzip, batches: seq<Batch>)
    requires Fold(gz, batches).error.None?
    ensures Fold(gz, batches).chunks == |batches| && Fold(gz, batches).items == Sum(Lengths(gz, batches))
    ensures batches != [] <==> Fold(gz, batches).result.Some?
  {
    hide DecodeBatch, Merge, Length;
    if batches != [] {
      var n := |batches| - 1;
      FoldCounts(gz, batches[..n]);
      assert Lengths(gz, batches)[..n] == Lengths(gz, batches[..n]);
    }
  }

  /**
   A failure at batch k carries the fold of the k batches before it. The counters are theirs
   too, unless batch k decoded to a list that a dictionary cannot take: then it is counted.
   */
  lemma {:induction false} FailureCarriesPrefix(gz: Gzip, batches: seq<Batch>) returns (k: nat)
    requires Fold(gz, batches).error.Some?
    ensures k < |batches| && Fold(gz, batches[..k]).error.None?
    ensures Fold(gz, batches).result == Fold(gz, batches[..k]).result
    ensures match DecodeBatch(gz, batches[k])
            case Failure(e) =>
              Fold(gz, batches) == Fold(gz, batches[..k]).(error := Some(e)) && Fold(gz, batches).chunks == k
            case Success(decoded) =>
              && Fold(gz, batches).error == Some(NotPairs) && decoded.Values? && decoded.xs != []
              && Fold(gz, batches).chunks == k + 1
              && Fold(gz, batches).items == Sum(Lengths(gz, batches[..k])) + |decoded.xs|
              && Fold(gz, batches).result.Some? && Fold(gz, batches).result.value.Entries?
    decreases |batches|
  {
    hide DecodeBatch;
    var n := |batches| - 1;
    if Fold(gz, batches[..n]).error.Some? {
      k := FailureCarriesPrefix(gz, batches[..n]);
      assert batches[..n][..k] == batches[..k];
    } else {
      k := n;
      FoldCounts(gz, batches[..n]);
    }
  }

  function Decoded(gz: Gzip, b: Batch): Collected {
    match DecodeBatch(gz, b) case Success(c) => c case Failure(_) => Values([])
  }

  ghost predicate ListAmong(gz: Gzip, batches: seq<Batch>) {
    exists b <- batches :: Decoded(gz, b).Values? && Decoded(gz, b).xs != []
  }

  /** Decodable batches fail to be collected exactly when a map comes first and a nonempty list later. */
  lemma {:induction false} MixedExactly(gz: Gzip, batches: seq<Batch>)
    requires forall b <- batches :: DecodeBatch(gz, b).Success?
    ensures Fold(gz, batches).error.Some? <==>
              batches != [] && Decoded(gz, batches[0]).Entries? && ListAmong(gz, batches)
    ensures batches != [] && Fold(gz, batches).error.None? ==>
              Fold(gz, batches).result.Some?
              && (Fold(gz, batches).result.value.Entries? <==> Decoded(gz, batches[0]).Entries?)
    decreases |batches|
  {
    hide DecodeBatch, Length;
    if batches != [] {
      var n := |batches| - 1;
      var last := batches[n];
      assert batches == batches[..n] + [last];
      assert forall b :: b in batches <==> b in batches[..n] || b == last;
      MixedExactly(gz, batches[..n]);
      assert ListAmong(gz, batches) <==>
             ListAmong(gz, batches[..n]) || (Decoded(gz, last).Values? && Decoded(gz, last).xs != []);
    }
  }

  // ---------- an empty first batch ----------

  /** If the concatenation decodes, every batch does. */
  lemma {:induction false} EachDecodes(gz: Gzip, batches: seq<Batch>, shape: Shape)
    requires AllOfShape(batches, shape) && DecodeBatch(gz, Concat(batches)).Success?
    ensures forall i :: 0 <= i < |batches| ==> DecodeBatch(gz, batches[i]).Success?
    decreases |batches|
  {
    hide DecodeBatch, OfShape, Join;
    if batches != [] {
      var n := |batches| - 1;
      var before, last := Concat(batches[..n]), batches[n];
      ConcatShape(batches[..n], shape);
      if before == EMPTY_BATCH {
        EmptyDecodes(gz);
        JoinEmpty(last);
      } else {
        JoinDecodes(gz, before, last, shape);
      }
      EachDecodes(gz, batches[..n], shape);
    }
  }

  lemma JoinEmpty(b: Batch)
    ensures Join(EMPTY_BATCH, b) == b
  {
  }

  /**
   A map that decodes is collected as that map exactly when the first batch is not empty (or no
   batch holds anything). After an empty first batch only its keys are collected, as a list.
   */
  lemma MapCollectedExactly(gz: Gzip, batches: seq<Batch>, shape: Shape)
    requires AllOfShape(batches, shape) && IsMapping(shape)
    requires DecodeBatch(gz, Concat(batches)).Success?
    ensures Conclude(Fold(gz, batches)) == Collection(DecodeBatch(gz, Concat(batches)).value)
            <==> Concat(batches) == EMPTY_BATCH || batches[0] != EMPTY_BATCH
    ensures Concat(batches) != EMPTY_BATCH && batches[0] == EMPTY_BATCH ==>
              Conclude(Fold(gz, batches)) == Collection(Values(Listings(gz, batches)))
  {
    hide DecodeBatch, Fold, OfShape;
    ConcatShape(batches, shape);
    var whole := Concat(batches);
    KeyedIsEntries(gz, whole, shape);
    EmptyDecodes(gz);
    if whole == EMPTY_BATCH {
      AllEmpty(gz, batches);
    } else if batches[0] != EMPTY_BATCH {
      FoldIsDecode(gz, batches, shape);
    } else {
      ListTakesKeys(gz, batches);
      EachDecodes(gz, batches, shape);
      MixedExactly(gz, batches);
    }
  }

  /** One key whose map batch follows an empty one: the collected result is the list of the key. */
  lemma EmptyFirstBatchLosesValues(gz: Gzip, key: Batch)
    requires OfShape(key, Mapping) && key != EMPTY_BATCH && DecodeBatch(gz, key).Success?
    ensures Conclude(Fold(gz, [key])) == Collection(DecodeBatch(gz, key).value)
    ensures Conclude(Fold(gz, [EMPTY_BATCH, key])) == Collection(Values(DecodeBatch(gz, key).value.dict.order))
  {
    FoldIsDecode(gz, [key], Mapping);
    ConcatOne(key);
    var batches := [EMPTY_BATCH, key];
    assert batches[..1] == [EMPTY_BATCH] && [EMPTY_BATCH][..0] == [];
    KeyedIsEntries(gz, key, Mapping);
    EmptyDecodes(gz);
    hide DecodeBatch;
    DecodedWellformed(gz, key);
    var f := Fold(gz, [EMPTY_BATCH]);
    assert f == Receive(gz, NOTHING, EMPTY_BATCH);
    assert f.result == Some(Values([])) && f.error.None?;
    var keys := DecodeBatch(gz, key).value.dict.order;
    assert Fold(gz, batches) == Receive(gz, f, key) && [] + keys == keys;
  }

  /** One map entry with an empty key and an empty value. */
  function EmptyEntry(): Batch {
    Batch([Key(Payload([], 0), None, None, None)], [], [Value(Payload([], 0), None, None, None)], [])
  }

  /** Sent alone the entry is collected as a dictionary; after an empty batch only its key is left, in a list. */
  lemma EmptyFirstBatchExample(gz: Gzip)
    ensures var e := Element([], None);
            && Conclude(Fold(gz, [EmptyEntry()])) == Collection(Entries(Dict([e], map[e := e])))
            && Conclude(Fold(gz, [EMPTY_BATCH, EmptyEntry()])) == Collection(Values([e]))
  {
    hide *;
    EntryDecodes(gz);
    ShapeOfEntry();
    EmptyFirstBatchLosesValues(gz, EmptyEntry());
  }

  lemma EntryDecodes(gz: Gzip)
    ensures var e := Element([], None); DecodeBatch(gz, EmptyEntry()) == Success(Entries(Dict([e], map[e := e])))
  {
    var e, coded := Element([], None), Coded(Payload([], 0), None, None);
    assert DecodeOne(gz, coded) == Success(e);
    assert CodedPairs(EmptyEntry()) == [(coded, coded)];
    var f := p => DecodePair(gz, p);
    assert f((coded, coded)) == Success((e, e));
    TraverseOne(f, (coded, coded));
    PutOne(e, e);
    hide Traverse, PutAll, DecodePair, DecodeOne, CodedPairs;
  }

  lemma PutOne(key: Element, value: Element)
    ensures PutAll(NO_ENTRIES, [(key, value)]) == Dict([key], map[key := value])
  {
    assert [(key, value)][..0] == [];
  }

  lemma TraverseOne<A, B>(f: A -> Result<B, StreamError>, x: A)
    requires f(x).Success?
    ensures Traverse(f, [x]) == Success([f(x).value])
  {
    TraverseAppend(f, [], [x]);
    var xs: seq<A> := [x];
    assert xs[..|xs| - 1] == [] && xs[|xs| - 1] == x;
    assert Traverse(f, xs[..|xs| - 1]) == Success([]);
    assert [] + [f(x).value] == [f(x).value];
  }

  lemma ShapeOfEntry()
    ensures OfShape(EmptyEntry(), Mapping) && EmptyEntry() != EMPTY_BATCH
  {
  }
}
