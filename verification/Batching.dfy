/**
 Planning a bulk request as a list of requests no larger than MAX_RPC_SIZE
 (hurricache/grpc/batching.py).
 */
module Batching {
  import opened Basics
  import opened Wire
  import opened Errors
  import opened Messages
  import opened Greedy
  import opened Chunker
  import opened Operation

  /** The unit that is never split: one element, one removal, or one key-value pair. */
  datatype Item =
    | KeyItem(key: Key)
    | OrderedKeyItem(orderedKey: OrderedKey)
    | ValueItem(value: Value)
    | OrderedValueItem(orderedValue: OrderedValue)
    | MapItem(key: Key, value: Value)
    | OrderedMapItem(orderedKey: OrderedKey, value: Value)

  datatype Planned = Planned(request: Request, count: nat)

  // ---------- taking a request apart ----------

  function KeyItems(ks: seq<Key>): seq<Item> {
    seq(|ks|, i requires 0 <= i < |ks| => KeyItem(ks[i]))
  }

  function ValueItems(vs: seq<Value>): seq<Item> {
    seq(|vs|, i requires 0 <= i < |vs| => ValueItem(vs[i]))
  }

  function ListItems(l: Lists): Result<seq<Item>, Error> {
    var present := (l.keyUnordered != [], l.keyOrdered != [], l.valueUnordered != [], l.valueOrdered != []);
    match present
    case (false, false, false, false) => Success([])
    case (true, false, false, false) => Success(KeyItems(l.keyUnordered))
    case (false, true, false, false) =>
      Success(seq(|l.keyOrdered|, i requires 0 <= i < |l.keyOrdered| => OrderedKeyItem(l.keyOrdered[i])))
    case (false, false, true, false) => Success(ValueItems(l.valueUnordered))
    case (false, false, false, true) =>
      Success(seq(|l.valueOrdered|, i requires 0 <= i < |l.valueOrdered| => OrderedValueItem(l.valueOrdered[i])))
    case (true, false, true, false) =>
      if |l.keyUnordered| != |l.valueUnordered| then Failure(UnequalLengths)
      else Success(seq(|l.keyUnordered|, i requires 0 <= i < |l.keyUnordered| =>
                       MapItem(l.keyUnordered[i], l.valueUnordered[i])))
    case (false, true, true, false) =>
      if |l.keyOrdered| != |l.valueUnordered| then Failure(UnequalLengths)
      else Success(seq(|l.keyOrdered|, i requires 0 <= i < |l.keyOrdered| =>
                       OrderedMapItem(l.keyOrdered[i], l.valueUnordered[i])))
    case _ => Failure(NotMapPairs)
  }

  /** Removal keys and values are independent lists; elsewhere two lists are map pairs. */
  function ItemsOf(r: Request): Result<seq<Item>, Error> {
    match r
    case CreateContainer(_, _, _, _, lists) => ListItems(lists)
    case AddTo(_, _, _, _, lists) => ListItems(lists)
    case AddToVal(_, _, _, _, value) => Success(ValueItems(value))
    case RemoveFrom(_, _, values, keys) => Success(KeyItems(keys) + ValueItems(values))
  }

  /** The request without its items. */
  function Cleared(r: Request): Request {
    match r
    case CreateContainer(key, kind, ttl, lock, _) => CreateContainer(key, kind, ttl, lock, NO_ITEMS)
    case AddTo(key, kind, ttl, pos, _) => AddTo(key, kind, ttl, pos, NO_ITEMS)
    case AddToVal(key, ttl, isBefore, pivot, _) => AddToVal(key, ttl, isBefore, pivot, [])
    case RemoveFrom(key, kind, _, _) => RemoveFrom(key, kind, [], [])
  }

  /** Room for the hint that continuations will carry is reserved in the key. */
  function Reserve(base: Request, creation: bool): Request {
    if creation then base.(key := base.key.(hint := Some(FULL_HINT))) else base
  }

  predicate Accepts(r: Request, item: Item) {
    match r
    case CreateContainer(_, _, _, _, _) => true
    case AddTo(_, _, _, _, _) => true
    case AddToVal(_, _, _, _, _) => item.ValueItem?
    case RemoveFrom(_, _, _, _) => item.KeyItem? || item.ValueItem?
  }

  function AppendToLists(l: Lists, item: Item): Lists {
    match item
    case KeyItem(k) => l.(keyUnordered := l.keyUnordered + [k])
    case OrderedKeyItem(k) => l.(keyOrdered := l.keyOrdered + [k])
    case ValueItem(v) => l.(valueUnordered := l.valueUnordered + [v])
    case OrderedValueItem(v) => l.(valueOrdered := l.valueOrdered + [v])
    case MapItem(k, v) => l.(keyUnordered := l.keyUnordered + [k], valueUnordered := l.valueUnordered + [v])
    case OrderedMapItem(k, v) => l.(keyOrdered := l.keyOrdered + [k], valueUnordered := l.valueUnordered + [v])
  }

  function Append(r: Request, item: Item): Request
    requires Accepts(r, item)
  {
    match r
    case CreateContainer(key, kind, ttl, lock, lists) =>
      CreateContainer(key, kind, ttl, lock, AppendToLists(lists, item))
    case AddTo(key, kind, ttl, pos, lists) => AddTo(key, kind, ttl, pos, AppendToLists(lists, item))
    case AddToVal(key, ttl, isBefore, pivot, value) => AddToVal(key, ttl, isBefore, pivot, value + [item.value])
    case RemoveFrom(key, kind, values, keys) =>
      if item.KeyItem? then RemoveFrom(key, kind, values, keys + [item.key])
      else RemoveFrom(key, kind, values + [item.value], keys)
  }

  ghost predicate AcceptsAll(r: Request, items: seq<Item>) {
    forall item <- items :: Accepts(r, item)
  }

  function AppendAll(r: Request, items: seq<Item>): (a: Request)
    requires AcceptsAll(r, items)
    ensures HeaderFields(a) == HeaderFields(r)
    ensures forall item :: Accepts(a, item) <==> Accepts(r, item)
  {
    if items == [] then r else Append(AppendAll(r, items[..|items| - 1]), items[|items| - 1])
  }

  // ---------- positions ----------

  predicate Positional(r: Request) {
    r.AddTo? && r.pos.Some? && r.pos.value != UINT32_MAX
  }

  /** Inserting up to item e would leave the uint32 range. */
  predicate Overflows(r: Request, e: nat) {
    Positional(r) && r.pos.value + e > UINT32_MAX
  }

  /** The header of a chunk whose first item is item s. */
  function Shifted(r: Request, s: nat): Request {
    if Positional(r) && !Overflows(r, s) then r.(pos := Some(r.pos.value + s)) else r
  }

  // ---------- chunks ----------

  function Build(header: Request, items: seq<Item>, s: nat, e: nat): Result<Request, Error>
    requires s <= e <= |items| && AcceptsAll(header, items)
  {
    if Overflows(header, e) then Failure(PositionOverflow)
    else Success(AppendAll(Shifted(header, s), items[s..e]))
  }

  function ItemSize(item: Item): (n: nat)
    ensures n >= 2
  {
    match item
    case KeyItem(k) => DelimitedSize(|EncodeKey(k)|)
    case OrderedKeyItem(k) => DelimitedSize(|EncodeOrderedKey(k)|)
    case ValueItem(v) => DelimitedSize(|EncodeValue(v)|)
    case OrderedValueItem(v) => DelimitedSize(|EncodeOrderedValue(v)|)
    case MapItem(k, v) => DelimitedSize(|EncodeKey(k)|) + DelimitedSize(|EncodeValue(v)|)
    case OrderedMapItem(k, v) => DelimitedSize(|EncodeOrderedKey(k)|) + DelimitedSize(|EncodeValue(v)|)
  }

  /** The cutting problem `plan` solves. */
  function JobOf(header: Request, items: seq<Item>): (j: Job)
    ensures j.Valid() && |j.sizes| == |items|
  {
    Job(MAX_RPC_SIZE,
        seq(|items|, s requires 0 <= s < |items| => HeaderSize(Shifted(header, s))),
        SizesOf(items, ItemSize))
  }

  /** The first error of the preflight that builds and checks every item on its own. */
  function Preflight(header: Request, items: seq<Item>, i: nat): Option<Error>
    requires i <= |items| && AcceptsAll(header, items)
    decreases |items| - i
  {
    if i == |items| then None
    else match Build(header, items, i, i + 1)
      case Failure(e) => Some(e)
      case Success(r) =>
        if ByteSize(r) > MAX_RPC_SIZE then Some(RequestTooLarge) else Preflight(header, items, i + 1)
  }

  function ChunksOf(base: Request, items: seq<Item>, s: nat, cuts: seq<nat>): seq<Planned>
    requires s <= |items| && AcceptsAll(base, items)
    decreases |cuts|
  {
    if cuts == [] || !(s <= cuts[0] <= |items|) then []
    else
      [Planned(AppendAll(Shifted(base, s), items[s..cuts[0]]), cuts[0] - s)]
      + ChunksOf(base, items, cuts[0], cuts[1..])
  }

  /** The chunks in item order: measured with header `reserve`, built from header `base`. */
  function GreedyChunks(base: Request, reserve: Request, items: seq<Item>): seq<Planned>
    requires AcceptsAll(base, items)
  {
    ChunksOf(base, items, 0, JobOf(reserve, items).Ends(0))
  }

  /** What the preflight has established when the planning loop starts. */
  ghost predicate Cuttable(base: Request, reserve: Request, items: seq<Item>) {
    && AcceptsAll(base, items) && !Overflows(base, |items|)
    && IsHeader(reserve) && AcceptsAll(reserve, items) && !Overflows(reserve, |items|)
    && JobOf(reserve, items).Feasible()
  }

  predicate ReversesChunks(r: Request) {
    r.AddToVal? && !r.isBefore
  }

  lemma ItemsAccepted(r: Request)
    requires ItemsOf(r).Success?
    ensures AcceptsAll(Cleared(r), ItemsOf(r).value)
  {
  }

  /** What `plan` returns when the deadline does not interfere. */
  function PlanOf(request: Request, creation: bool): Result<seq<Planned>, Error> {
    if ItemsOf(request).Failure? then Failure(ItemsOf(request).error)
    else
      ItemsAccepted(request);
      var items := ItemsOf(request).value;
      var base := Cleared(request);
      var reserve := Reserve(base, creation);
      if ByteSize(reserve) > MAX_RPC_SIZE then Failure(RequestTooLarge)
      else match Preflight(reserve, items, 0)
        case Some(e) => Failure(e)
        case None =>
          var chunks := if items == [] then [Planned(base, 0)]
                        else GreedyChunks(base, reserve, items);
          Success(if ReversesChunks(request) then Reverse(chunks) else chunks)
  }

  /** The add request that carries the items of a later chunk of a creation. */
  function Continuation(chunk: Request, hint: Option<KeyHint>): Request
    requires chunk.CreateContainer?
  {
    var key := if hint.Some? then chunk.key.(hint := hint) else chunk.key;
    AddTo(key, Some(chunk.kind), None, None, chunk.lists)
  }

  // ---------- sizes of built chunks ----------

  lemma BodyPush<T>(xs: seq<T>, x: T, enc: T -> Bytes, bodies: seq<Bytes>, bodies': seq<Bytes>)
    requires |bodies| == |xs| && |bodies'| == |xs| + 1
    requires forall i :: 0 <= i < |xs| ==> bodies[i] == bodies'[i]
    requires bodies'[|xs|] == enc(x)
    ensures BodySizes(bodies') == BodySizes(bodies) + DelimitedSize(|enc(x)|)
  {
    assert bodies' == bodies + [enc(x)];
    BodySizesPush(bodies, enc(x));
  }

  lemma KeyPush(ks: seq<Key>, k: Key)
    ensures BodySizes(KeyBodies(ks + [k])) == BodySizes(KeyBodies(ks)) + DelimitedSize(|EncodeKey(k)|)
  {
    BodyPush(ks, k, EncodeKey, KeyBodies(ks), KeyBodies(ks + [k]));
  }

  lemma OrderedKeyPush(ks: seq<OrderedKey>, k: OrderedKey)
    ensures BodySizes(OrderedKeyBodies(ks + [k]))
            == BodySizes(OrderedKeyBodies(ks)) + DelimitedSize(|EncodeOrderedKey(k)|)
  {
    BodyPush(ks, k, EncodeOrderedKey, OrderedKeyBodies(ks), OrderedKeyBodies(ks + [k]));
  }

  lemma ValuePush(vs: seq<Value>, v: Value)
    ensures BodySizes(ValueBodies(vs + [v])) == BodySizes(ValueBodies(vs)) + DelimitedSize(|EncodeValue(v)|)
  {
    BodyPush(vs, v, EncodeValue, ValueBodies(vs), ValueBodies(vs + [v]));
  }

  lemma OrderedValuePush(vs: seq<OrderedValue>, v: OrderedValue)
    ensures BodySizes(OrderedValueBodies(vs + [v]))
            == BodySizes(OrderedValueBodies(vs)) + DelimitedSize(|EncodeOrderedValue(v)|)
  {
    BodyPush(vs, v, EncodeOrderedValue, OrderedValueBodies(vs), OrderedValueBodies(vs + [v]));
  }

  lemma AppendToListsSize(l: Lists, item: Item)
    ensures ListSize(AppendToLists(l, item)) == ListSize(l) + ItemSize(item)
  {
    hide EncodeKey, EncodeOrderedKey, EncodeValue, EncodeOrderedValue, DelimitedSize, BodySizes;
    hide KeyBodies, OrderedKeyBodies, ValueBodies, OrderedValueBodies;
    match item
    case KeyItem(k) => KeyPush(l.keyUnordered, k);
    case OrderedKeyItem(k) => OrderedKeyPush(l.keyOrdered, k);
    case ValueItem(v) => ValuePush(l.valueUnordered, v);
    case OrderedValueItem(v) => OrderedValuePush(l.valueOrdered, v);
    case MapItem(k, v) =>
      KeyPush(l.keyUnordered, k);
      ValuePush(l.valueUnordered, v);
    case OrderedMapItem(k, v) =>
      OrderedKeyPush(l.keyOrdered, k);
      ValuePush(l.valueUnordered, v);
  }

  lemma AppendSize(r: Request, item: Item)
    requires Accepts(r, item)
    ensures ItemsSize(Append(r, item)) == ItemsSize(r) + ItemSize(item)
  {
    match r
    case CreateContainer(_, _, _, _, lists) => AppendToListsSize(lists, item);
    case AddTo(_, _, _, _, lists) => AppendToListsSize(lists, item);
    case AddToVal(_, _, _, _, value) => ValuePush(value, item.value);
    case RemoveFrom(_, _, values, keys) =>
      if item.KeyItem? {
        KeyPush(keys, item.key);
      } else {
        ValuePush(values, item.value);
      }
  }

  lemma {:induction false} AppendAllSize(r: Request, items: seq<Item>)
    requires AcceptsAll(r, items)
    ensures ItemsSize(AppendAll(r, items)) == ItemsSize(r) + Sum(SizesOf(items, ItemSize))
  {
    hide ItemSize, ItemsSize, Append;
    if items != [] {
      var n := |items| - 1;
      AppendAllSize(r, items[..n]);
      AppendSize(AppendAll(r, items[..n]), items[n]);
      SizesPush(items, n);
    }
  }

  lemma SizesPush(items: seq<Item>, n: nat)
    requires |items| == n + 1
    ensures Sum(SizesOf(items, ItemSize)) == Sum(SizesOf(items[..n], ItemSize)) + ItemSize(items[n])
  {
    hide ItemSize;
    SizesSlice(items, ItemSize, 0, n);
  }

  predicate IsHeader(r: Request) {
    r == Cleared(r)
  }

  lemma FilledSize(header: Request, items: seq<Item>)
    requires AcceptsAll(header, items) && ItemsSize(header) == 0
    ensures ByteSize(AppendAll(header, items)) == HeaderSize(header) + Sum(SizesOf(items, ItemSize))
  {
    ByteSizeSplits(AppendAll(header, items));
    AppendAllSize(header, items);
  }

  /** Serialized size of a chunk: its shifted header plus its items. */
  lemma BuildSize(header: Request, items: seq<Item>, s: nat, e: nat)
    requires IsHeader(header) && AcceptsAll(header, items) && s < e <= |items| && !Overflows(header, e)
    ensures ByteSize(Build(header, items, s, e).value) == JobOf(header, items).Load(s, e)
  {
    var h := Shifted(header, s);
    assert ItemsSize(h) == 0;
    assert AcceptsAll(h, items[s..e]);
    assert Build(header, items, s, e).value == AppendAll(h, items[s..e]);
    SizesSlice(items, ItemSize, s, e);
    assert JobOf(header, items).head[s] == HeaderSize(h);
    hide ItemsSize, HeaderSize, AppendAll, Shifted, ItemSize, ByteSize;
    FilledSize(h, items[s..e]);
  }

  // ---------- preflight ----------

  /** Item k fits a request of its own, at a uint32 position. */
  ghost predicate ItemPasses(header: Request, items: seq<Item>, k: nat)
    requires k < |items|
  {
    !Overflows(header, k + 1) && JobOf(header, items).Fits(k, k + 1)
  }

  lemma PreflightStep(header: Request, items: seq<Item>, i: nat)
    requires IsHeader(header) && AcceptsAll(header, items) && i <= |items|
    ensures Preflight(header, items, i) ==
              if i == |items| then None
              else if Overflows(header, i + 1) then Some(PositionOverflow)
              else if !ItemPasses(header, items, i) then Some(RequestTooLarge)
              else Preflight(header, items, i + 1)
    ensures i < |items| && Overflows(header, i + 1) ==>
              !ItemPasses(header, items, i) && Overflows(header, |items|)
  {
    if i < |items| && !Overflows(header, i + 1) {
      BuildSize(header, items, i, i + 1);
      hide Overflows, ByteSize, AppendAll, Shifted;
    }
  }

  /** The preflight succeeds exactly when every item passes. */
  lemma {:induction false} PreflightExact(header: Request, items: seq<Item>, i: nat)
    requires IsHeader(header) && AcceptsAll(header, items) && i <= |items|
    ensures Preflight(header, items, i).None? <==> forall k :: i <= k < |items| ==> ItemPasses(header, items, k)
    decreases |items| - i
  {
    hide *;
    PreflightStep(header, items, i);
    if i < |items| {
      PreflightExact(header, items, i + 1);
    }
  }

  /** When no item is too large, the preflight rejects exactly the positions that leave uint32. */
  lemma {:induction false} PreflightPosition(header: Request, items: seq<Item>, i: nat)
    requires IsHeader(header) && AcceptsAll(header, items) && i <= |items|
    requires forall k :: 0 <= k < |items| && !Overflows(header, k + 1) ==> ItemPasses(header, items, k)
    ensures Preflight(header, items, i) ==
              if i < |items| && Overflows(header, |items|) then Some(PositionOverflow) else None
    decreases |items| - i
  {
    hide *;
    PreflightStep(header, items, i);
    if i < |items| {
      PreflightPosition(header, items, i + 1);
    }
  }

  lemma PreflightFeasible(header: Request, items: seq<Item>)
    requires IsHeader(header) && AcceptsAll(header, items) && Preflight(header, items, 0) == None
    ensures JobOf(header, items).Feasible()
    ensures items != [] ==> !Overflows(header, |items|)
  {
    hide *;
    PreflightExact(header, items, 0);
    AllPassFeasible(header, items);
  }

  lemma AllPassFeasible(header: Request, items: seq<Item>)
    requires forall k :: 0 <= k < |items| ==> ItemPasses(header, items, k)
    ensures JobOf(header, items).Feasible()
    ensures items != [] ==> !Overflows(header, |items|)
  {
    hide JobOf, Overflows, Job.Fits;
    var j := JobOf(header, items);
    forall i, e | 0 <= i < |j.sizes| && e == i + 1
      ensures j.Fits(i, e)
    {
      assert ItemPasses(header, items, i);
    }
    if items != [] {
      assert ItemPasses(header, items, |items| - 1);
    }
  }

  /** Shifting the position by one adds at most one byte to the header. */
  lemma ShiftStep(header: Request, s: nat)
    requires IsHeader(header) && !Overflows(header, s + 1)
    ensures HeaderSize(Shifted(header, s + 1)) <= HeaderSize(Shifted(header, s)) + 1
  {
    if Positional(header) {
      AddHeaderSize(Shifted(header, s));
      AddHeaderSize(Shifted(header, s + 1));
      VarintStep(header.pos.value + s);
    }
  }

  /** Item i and the header after it are as a steady job demands. */
  predicate SteadyAt(j: Job, i: nat)
    requires j.Valid() && i < |j.sizes|
  {
    j.sizes[i] >= 2 && (i < |j.head| - 1 ==> j.head[i + 1] <= j.head[i] + 1)
  }

  lemma JobSteadyAt(header: Request, items: seq<Item>, i: nat)
    requires IsHeader(header) && i < |items| && !Overflows(header, |items|)
    ensures SteadyAt(JobOf(header, items), i)
  {
    hide HeaderSize, Shifted, ItemSize, Overflows, IsHeader;
    var j := JobOf(header, items);
    assert j.sizes[i] == ItemSize(items[i]) && ItemSize(items[i]) >= 2;
    OverflowsLess(header, i + 1, |items|);
    ShiftStep(header, i);
    if i < |j.head| - 1 {
      assert j.head[i] == HeaderSize(Shifted(header, i)) && j.head[i + 1] == HeaderSize(Shifted(header, i + 1));
    }
  }

  lemma JobSteady(header: Request, items: seq<Item>)
    requires IsHeader(header) && (items != [] ==> !Overflows(header, |items|))
    ensures JobOf(header, items).Steady()
  {
    hide *;
    var j := JobOf(header, items);
    forall i | 0 <= i < |items|
      ensures j.Valid() && i < |j.sizes| && SteadyAt(j, i)
    {
      JobSteadyAt(header, items, i);
    }
    SteadyMeans(j);
  }

  lemma SteadyMeans(j: Job)
    requires j.Valid() && forall i :: 0 <= i < |j.sizes| ==> SteadyAt(j, i)
    ensures j.Steady()
  {
    forall i | 0 <= i < |j.sizes|
      ensures j.sizes[i] >= 2 && (i < |j.head| - 1 ==> j.head[i + 1] <= j.head[i] + 1)
    {
      assert SteadyAt(j, i);
    }
  }

  // ---------- the planner ----------

  method Check(ctx: Context, request: Request) returns (r: Result<(), Error>)
    modifies ctx`now
    ensures ctx.now >= old(ctx.now)
    ensures (r == Failure(DeadlineExceeded) && ctx.Expired())
            || r == (if ByteSize(request) > MAX_RPC_SIZE then Failure(RequestTooLarge) else Success(()))
    ensures r.Success? && ctx.deadline.Some? ==> ctx.now < ctx.deadline.value
  {
    var left := ctx.Remaining(None);
    if left.Failure? {
      return Failure(left.error);
    }
    r := if ByteSize(request) > MAX_RPC_SIZE then Failure(RequestTooLarge) else Success(());
  }

  lemma AppendPush(r: Request, items: seq<Item>, i: nat)
    requires AcceptsAll(r, items) && i < |items|
    ensures Accepts(AppendAll(r, items[..i]), items[i])
    ensures AppendAll(r, items[..i + 1]) == Append(AppendAll(r, items[..i]), items[i])
  {
    assert items[..i + 1][..i] == items[..i];
  }

  method BuildChunk(header: Request, items: seq<Item>, s: nat, e: nat) returns (r: Result<Request, Error>)
    requires s <= e <= |items| && AcceptsAll(header, items)
    ensures r == Build(header, items, s, e)
  {
    var result := header;
    if header.AddTo? && header.pos.Some? && header.pos.value != UINT32_MAX {
      if header.pos.value + e > UINT32_MAX {
        return Failure(PositionOverflow);
      }
      result := header.(pos := Some(header.pos.value + s));
    }
    ghost var shifted := Shifted(header, s);
    var part := items[s..e];
    for i := 0 to |part|
      invariant AcceptsAll(shifted, part) && result == AppendAll(shifted, part[..i])
    {
      AppendPush(shifted, part, i);
      result := Append(result, part[i]);
    }
    assert part[..|part|] == part;
    r := Success(result);
  }

  lemma OverflowsLess(r: Request, m: nat, n: nat)
    requires m <= n && !Overflows(r, n)
    ensures !Overflows(r, m)
  {
  }

  lemma BuildSucceeds(header: Request, items: seq<Item>, s: nat, e: nat)
    requires s <= e <= |items| && AcceptsAll(header, items) && !Overflows(header, e)
    ensures AcceptsAll(Shifted(header, s), items[s..e])
    ensures Build(header, items, s, e) == Success(AppendAll(Shifted(header, s), items[s..e]))
  {
  }

  method FurthestEnd(header: Request, items: seq<Item>, start: nat) returns (lo: nat)
    requires IsHeader(header) && AcceptsAll(header, items) && start < |items|
    requires JobOf(header, items).Feasible() && !Overflows(header, |items|)
    ensures lo == JobOf(header, items).MaxEnd(start, start + 1)
  {
    ghost var j := JobOf(header, items);
    lo := start + 1;
    var hi := |items|;
    while lo < hi
      invariant start < lo <= hi <= |items|
      invariant lo <= j.MaxEnd(start, start + 1) <= hi
    {
      var middle := (lo + hi + 1) / 2;
      var built := BuildChunk(header, items, start, middle);
      BuildSize(header, items, start, middle);
      MaxEndIsFurthest(j, start, start + 1, middle);
      if ByteSize(built.value) <= MAX_RPC_SIZE {
        lo := middle;
      } else {
        hi := middle - 1;
      }
    }
  }

  lemma ChunksStep(base: Request, items: seq<Item>, s: nat, cuts: seq<nat>)
    requires cuts != [] && s <= cuts[0] <= |items| && AcceptsAll(base, items)
    ensures AcceptsAll(Shifted(base, s), items[s..cuts[0]])
    ensures ChunksOf(base, items, s, cuts)
            == [Planned(AppendAll(Shifted(base, s), items[s..cuts[0]]), cuts[0] - s)]
               + ChunksOf(base, items, cuts[0], cuts[1..])
  {
    hide AppendAll;
  }

  lemma ChunksNone(base: Request, items: seq<Item>, s: nat)
    requires s <= |items| && AcceptsAll(base, items)
    ensures ChunksOf(base, items, s, []) == []
  {
  }

  lemma IncreasingStep(s: nat, cuts: seq<nat>, m: nat)
    requires Increasing(s, cuts, m)
    ensures s <= m && (cuts == [] ==> s == m) && (cuts != [] ==> s <= cuts[0] <= m && Increasing(cuts[0], cuts[1..], m))
  {
  }

  lemma {:induction false} ChunksPush(base: Request, items: seq<Item>, s: nat, cuts: seq<nat>, m: nat, e: nat)
    requires s <= m < e <= |items| && AcceptsAll(base, items) && Increasing(s, cuts, m)
    ensures ChunksOf(base, items, s, cuts + [e])
            == ChunksOf(base, items, s, cuts) + [Planned(AppendAll(Shifted(base, s + (m - s)), items[m..e]), e - m)]
    decreases |cuts|
  {
    hide *;
    IncreasingStep(s, cuts, m);
    ChunksStep(base, items, s, cuts + [e]);
    if cuts == [] {
      assert (cuts + [e])[1..] == [];
      ChunksNone(base, items, e);
      ChunksNone(base, items, s);
    } else {
      assert (cuts + [e])[1..] == cuts[1..] + [e];
      ChunksStep(base, items, s, cuts);
      ChunksPush(base, items, cuts[0], cuts[1..], m, e);
    }
  }

  method PreflightAll(ctx: Context, reserve: Request, items: seq<Item>) returns (r: Result<(), Error>)
    requires AcceptsAll(reserve, items)
    modifies ctx`now
    ensures ctx.now >= old(ctx.now)
    ensures (r == Failure(DeadlineExceeded) && ctx.Expired())
            || r == match Preflight(reserve, items, 0) case None => Success(()) case Some(e) => Failure(e)
  {
    hide ByteSize, Build, AcceptsAll;
    for index := 0 to |items|
      invariant ctx.now >= old(ctx.now)
      invariant Preflight(reserve, items, 0) == Preflight(reserve, items, index)
    {
      var one := BuildChunk(reserve, items, index, index + 1);
      if one.Failure? {
        return Failure(one.error);
      }
      var checked := Check(ctx, one.value);
      if checked.Failure? {
        return checked;
      }
    }
    r := Success(());
  }

  lemma CuttableMeans(base: Request, reserve: Request, items: seq<Item>)
    requires Cuttable(base, reserve, items)
    ensures AcceptsAll(base, items) && !Overflows(base, |items|)
    ensures IsHeader(reserve) && AcceptsAll(reserve, items) && !Overflows(reserve, |items|)
    ensures JobOf(reserve, items).Feasible()
    ensures GreedyChunks(base, reserve, items) == ChunksOf(base, items, 0, JobOf(reserve, items).Ends(0))
    ensures Increasing(0, [], 0) && ChunksOf(base, items, 0, []) == []
  {
  }

  /** The planning loop: sizes are measured on `reserve`, chunks are built from `base`. */
  method CutAll(ctx: Context, base: Request, reserve: Request, items: seq<Item>)
    returns (r: Result<seq<Planned>, Error>)
    requires Cuttable(base, reserve, items)
    modifies ctx`now
    ensures ctx.now >= old(ctx.now)
    ensures (r == Failure(DeadlineExceeded) && ctx.Expired())
            || r == Success(GreedyChunks(base, reserve, items))
  {
    hide *;
    ghost var j := JobOf(reserve, items);
    CuttableMeans(base, reserve, items);
    var chunks: seq<Planned> := [];
    ghost var cuts: seq<nat> := [];
    var start := 0;
    while start < |items|
      invariant ctx.now >= old(ctx.now)
      invariant start <= |items| && Increasing(0, cuts, start)
      invariant chunks == ChunksOf(base, items, 0, cuts)
      invariant j.Ends(0) == cuts + j.Ends(start)
    {
      var left := ctx.Remaining(None);
      if left.Failure? {
        return Failure(left.error);
      }
      var lo := FurthestEnd(reserve, items, start);
      var chunk := BuildChunk(base, items, start, lo);
      EndsStep(j, start);
      OverflowsLess(base, lo, |items|);
      BuildSucceeds(base, items, start, lo);
      ChunksPush(base, items, 0, cuts, start, lo);
      IncreasingPush(0, cuts, start, lo);
      chunks := chunks + [Planned(chunk.value, lo - start)];
      cuts := cuts + [lo];
      start := lo;
    }
    EndsStep(j, start);
    assert cuts + [] == cuts;
    r := Success(chunks);
  }

  /** The first chunk built is the header itself, and what passes the preflight can be cut. */
  lemma PlanStarts(request: Request, creation: bool)
    requires ItemsOf(request).Success?
    ensures var base, items := Cleared(request), ItemsOf(request).value;
            var reserve := Reserve(base, creation);
            && AcceptsAll(base, items) && AcceptsAll(reserve, items) && IsHeader(reserve)
            && Build(reserve, items, 0, 0) == Success(reserve)
  {
    ItemsAccepted(request);
    hide ItemsOf;
  }

  lemma PlanCuttable(base: Request, creation: bool, items: seq<Item>)
    requires var reserve := Reserve(base, creation);
             IsHeader(reserve) && AcceptsAll(base, items) && AcceptsAll(reserve, items)
             && Preflight(reserve, items, 0) == None
    ensures items != [] ==> Cuttable(base, Reserve(base, creation), items)
  {
    PreflightFeasible(Reserve(base, creation), items);
    hide AcceptsAll, Preflight, JobOf, IsHeader;
  }

  method Plan(ctx: Context, request: Request, creation: bool) returns (r: Result<seq<Planned>, Error>)
    modifies ctx`now
    ensures ctx.now >= old(ctx.now)
    ensures r == PlanOf(request, creation) || (r == Failure(DeadlineExceeded) && ctx.Expired())
  {
    hide ByteSize, ItemsOf, Cleared, Reserve, Preflight, Build, GreedyChunks, Cuttable, AcceptsAll, IsHeader;
    if ItemsOf(request).Failure? {
      return Failure(ItemsOf(request).error);
    }
    PlanStarts(request, creation);
    var items := ItemsOf(request).value;
    var base := Cleared(request);
    var reserve := Reserve(base, creation);
    var whole := BuildChunk(reserve, items, 0, 0);
    var checked := Check(ctx, whole.value);
    if checked.Failure? {
      return Failure(checked.error);
    }
    checked := PreflightAll(ctx, reserve, items);
    if checked.Failure? {
      return Failure(checked.error);
    }
    PlanCuttable(base, creation, items);
    var chunks;
    if items == [] {
      chunks := [Planned(base, 0)];
    } else {
      var cut := CutAll(ctx, base, reserve, items);
      if cut.Failure? {
        return cut;
      }
      chunks := cut.value;
    }
    if ReversesChunks(request) {
      chunks := Reverse(chunks);
    }
    r := Success(chunks);
  }
}
