/** The linear chunker of hurricache/grpc/utils.py and the request size limit. */
module Chunker {
  import opened Basics
  import opened Greedy

  const MAX_RPC_SIZE: nat := 4 * 1024 * 1024 - 512 * 1024

  function Slices<T>(items: seq<T>, s: nat, cuts: seq<nat>): seq<seq<T>>
    requires s <= |items|
    decreases |cuts|
  {
    if cuts == [] || !(s <= cuts[0] <= |items|) then []
    else [items[s..cuts[0]]] + Slices(items, cuts[0], cuts[1..])
  }

  /** Slicing at covering cuts loses and repeats nothing. */
  lemma {:induction false} SlicesCover<T>(items: seq<T>, j: Job, s: nat, cuts: seq<nat>)
    requires j.Valid() && |j.sizes| == |items| && s <= |items| && j.Covers(s, cuts)
    ensures Flatten(Slices(items, s, cuts)) == items[s..]
    ensures |Slices(items, s, cuts)| == |cuts|
    decreases |cuts|
  {
    if cuts != [] {
      SlicesCover(items, j, cuts[0], cuts[1..]);
      assert items[s..] == items[s..cuts[0]] + items[cuts[0]..];
    }
  }

  lemma {:induction false} SlicesPush<T>(items: seq<T>, j: Job, s: nat, cuts: seq<nat>, m: nat, e: nat)
    requires j.Valid() && |j.sizes| == |items| && s <= m < e <= |items|
    requires Increasing(s, cuts, m)
    ensures Slices(items, s, cuts + [e]) == Slices(items, s, cuts) + [items[m..e]]
    decreases |cuts|
  {
    if cuts == [] {
      assert (cuts + [e])[1..] == [];
      assert Slices(items, e, []) == [];
    } else {
      assert (cuts + [e])[1..] == cuts[1..] + [e];
      SlicesPush(items, j, cuts[0], cuts[1..], m, e);
    }
  }

  /** `cuts` climb from s to m. */
  ghost predicate Increasing(s: nat, cuts: seq<nat>, m: nat)
    decreases |cuts|
  {
    if cuts == [] then s == m else s < cuts[0] <= m && Increasing(cuts[0], cuts[1..], m)
  }

  lemma {:induction false} IncreasingPush(s: nat, cuts: seq<nat>, m: nat, e: nat)
    requires Increasing(s, cuts, m) && m < e
    ensures Increasing(s, cuts + [e], e)
    decreases |cuts|
  {
    if cuts != [] {
      assert (cuts + [e])[1..] == cuts[1..] + [e];
      IncreasingPush(cuts[0], cuts[1..], m, e);
    }
  }

  function SizesOf<T>(messages: seq<T>, sizeOf: T -> nat): seq<nat> {
    seq(|messages|, i requires 0 <= i < |messages| => sizeOf(messages[i]))
  }

  lemma SizesSlice<T>(messages: seq<T>, sizeOf: T -> nat, s: nat, e: nat)
    requires s <= e <= |messages|
    ensures SizesOf(messages[s..e], sizeOf) == SizesOf(messages, sizeOf)[s..e]
  {
  }

  /** Cutting with one header size for every chunk. */
  function LinearJob(base: nat, sizes: seq<nat>): Job {
    Job(MAX_RPC_SIZE, seq(|sizes|, _ => base), sizes)
  }

  predicate TooLarge<T>(base: nat, messages: seq<T>, sizeOf: T -> nat) {
    exists i :: 0 <= i < |messages| && sizeOf(messages[i]) + base > MAX_RPC_SIZE
  }

  /** The greedy slices; without messages there is still one chunk, an empty one. */
  function LinearChunks<T>(base: nat, messages: seq<T>, sizeOf: T -> nat): seq<seq<T>> {
    if messages == [] then [[]]
    else Slices(messages, 0, LinearJob(base, SizesOf(messages, sizeOf)).Ends(0))
  }

  /**
   The state after scanning i messages: `done` are the ends of the finished chunks, the open
   chunk holds messages s..i, and the greedy cutting agrees with both.
   */
  ghost predicate Scanned<T>(j: Job, messages: seq<T>, chunks: seq<seq<T>>, size: nat, done: seq<nat>, s: nat, i: nat)
    requires j.Valid() && |j.sizes| == |messages| && i <= |messages|
  {
    && s <= i && (s == i ==> i == 0)
    && chunks != [] && chunks[|chunks| - 1] == messages[s..i]
    && Increasing(0, done, s)
    && chunks[..|chunks| - 1] == Slices(messages, 0, done)
    && (s < i ==> size == j.Load(s, i) && j.Fits(s, i) && j.MaxEnd(s, s + 1) == j.MaxEnd(s, i))
    && j.Ends(0) == done + j.Ends(s)
  }

  /** `chunks[-1].append(message)` */
  function Pushed<T>(chunks: seq<seq<T>>, message: T): (r: seq<seq<T>>)
    requires chunks != []
    ensures r != [] && r[|r| - 1] == chunks[|chunks| - 1] + [message] && r[..|r| - 1] == chunks[..|chunks| - 1]
  {
    chunks[|chunks| - 1 := chunks[|chunks| - 1] + [message]]
  }

  lemma ScanStarts<T>(j: Job, messages: seq<T>, size: nat)
    requires j.Valid() && |j.sizes| == |messages|
    ensures Scanned(j, messages, [[]], size, [], 0, 0)
  {
  }

  lemma ScanOpen<T>(j: Job, messages: seq<T>, chunks: seq<seq<T>>, size: nat, done: seq<nat>, s: nat, i: nat)
    requires j.Valid() && |j.sizes| == |messages| && i <= |messages|
    requires Scanned(j, messages, chunks, size, done, s, i)
    ensures chunks != [] && (s == i <==> chunks[|chunks| - 1] == []) && (s == i ==> i == 0) && s <= i
  {
  }

  /** Scanning message i either closes the open chunk or extends it. */
  lemma ScanExtends<T>(j: Job, messages: seq<T>, chunks: seq<seq<T>>, size: nat, done: seq<nat>, s: nat, i: nat)
    requires j.Valid() && |j.sizes| == |messages| && i < |messages|
    requires Scanned(j, messages, chunks, size, done, s, i) && j.Fits(i, i + 1)
    requires s == i ==> size == j.head[s]
    requires s == i || size + j.sizes[i] <= j.limit
    ensures Scanned(j, messages, Pushed(chunks, messages[i]), size + j.sizes[i], done, s, i + 1)
  {
    LoadOne(j, i);
    if s < i {
      LoadPush(j, s, i);
    }
  }

  lemma ScannedMeans<T>(j: Job, messages: seq<T>, chunks: seq<seq<T>>, size: nat, done: seq<nat>, s: nat, i: nat)
    requires j.Valid() && |j.sizes| == |messages| && i <= |messages|
    requires Scanned(j, messages, chunks, size, done, s, i)
    ensures s <= i && chunks != [] && chunks[|chunks| - 1] == messages[s..i] && Increasing(0, done, s)
    ensures chunks[..|chunks| - 1] == Slices(messages, 0, done) && j.Ends(0) == done + j.Ends(s)
    ensures s < i ==> size == j.Load(s, i) && j.Fits(s, i) && j.MaxEnd(s, s + 1) == j.MaxEnd(s, i)
  {
  }

  lemma ScanCloses<T>(j: Job, messages: seq<T>, chunks: seq<seq<T>>, size: nat, done: seq<nat>, s: nat, i: nat)
    requires j.Valid() && |j.sizes| == |messages| && i < |messages|
    requires Scanned(j, messages, chunks, size, done, s, i) && j.Fits(i, i + 1)
    requires s < i && size + j.sizes[i] > j.limit
    ensures Scanned(j, messages, Pushed(chunks + [[]], messages[i]), j.head[i] + j.sizes[i], done + [i], i, i + 1)
  {
    hide *;
    ScannedMeans(j, messages, chunks, size, done, s, i);
    ClosesAt(j, s, i);
    SlicesPush(messages, j, 0, done, s, i);
    IncreasingPush(0, done, s, i);
    assert chunks == chunks[..|chunks| - 1] + [messages[s..i]];
    assert done + [i] + j.Ends(i) == done + ([i] + j.Ends(i));
    StartsNext(j, messages, chunks, done + [i], i);
  }

  /** The open chunk s..i ends at i when the next message does not fit. */
  lemma ClosesAt(j: Job, s: nat, i: nat)
    requires j.Valid() && s < i < |j.sizes| && j.MaxEnd(s, s + 1) == j.MaxEnd(s, i)
    requires j.Load(s, i) + j.sizes[i] > j.limit
    ensures j.Ends(s) == [i] + j.Ends(i)
  {
    LoadPush(j, s, i);
    EndsStep(j, s);
  }

  /** After closing, message i opens the next chunk. */
  lemma StartsNext<T>(j: Job, messages: seq<T>, chunks: seq<seq<T>>, done: seq<nat>, i: nat)
    requires j.Valid() && |j.sizes| == |messages| && 0 < i < |messages| && j.Fits(i, i + 1)
    requires chunks == Slices(messages, 0, done) && Increasing(0, done, i) && j.Ends(0) == done + j.Ends(i)
    ensures Scanned(j, messages, Pushed(chunks + [[]], messages[i]), j.head[i] + j.sizes[i], done, i, i + 1)
  {
    LoadOne(j, i);
    hide Slices, Increasing;
    var open := chunks + [[]];
    assert open[..|open| - 1] == chunks && open[|open| - 1] == [];
    assert [] + [messages[i]] == messages[i..i + 1];
  }

  lemma ScanEnds<T>(j: Job, messages: seq<T>, chunks: seq<seq<T>>, size: nat, done: seq<nat>, s: nat)
    requires j.Valid() && |j.sizes| == |messages| && messages != []
    requires Scanned(j, messages, chunks, size, done, s, |messages|)
    ensures chunks == Slices(messages, 0, j.Ends(0))
  {
    var n := |messages|;
    assert j.Ends(s) == [n];
    SlicesPush(messages, j, 0, done, s, n);
    assert chunks == chunks[..|chunks| - 1] + [messages[s..n]];
  }

  method ChunkMessages<T>(base: nat, messages: seq<T>, sizeOf: T -> nat) returns (r: Result<seq<seq<T>>, string>)
    ensures r.Failure? <==> TooLarge(base, messages, sizeOf)
    ensures r.Success? ==> r.value == LinearChunks(base, messages, sizeOf)
  {
    hide Scanned, Increasing, Slices, TooLarge;
    ghost var j := LinearJob(base, SizesOf(messages, sizeOf));
    var chunks: seq<seq<T>> := [[]];
    var size: nat := base;
    ghost var done: seq<nat> := [];
    ghost var s: nat := 0;
    ScanStarts(j, messages, base);
    for i := 0 to |messages|
      invariant forall k :: 0 <= k < i ==> sizeOf(messages[k]) + base <= MAX_RPC_SIZE
      invariant Scanned(j, messages, chunks, size, done, s, i)
      invariant i == 0 ==> size == base && chunks == [[]]
    {
      var messageSize := sizeOf(messages[i]);
      if messageSize + base > MAX_RPC_SIZE {
        ElementTooLarge(base, messages, sizeOf, i);
        return Failure("one element exceeds the maximum HurriCache request size");
      }
      ScanOpen(j, messages, chunks, size, done, s, i);
      LoadOne(j, i);
      if chunks[|chunks| - 1] != [] && size + messageSize > MAX_RPC_SIZE {
        ScanCloses(j, messages, chunks, size, done, s, i);
        chunks := chunks + [[]];
        size := base;
        done, s := done + [i], i;
      } else {
        ScanExtends(j, messages, chunks, size, done, s, i);
      }
      chunks := Pushed(chunks, messages[i]);
      size := size + messageSize;
    }
    NoneTooLarge(base, messages, sizeOf);
    if messages != [] {
      ScanEnds(j, messages, chunks, size, done, s);
    }
    r := Success(chunks);
  }

  lemma ElementTooLarge<T>(base: nat, messages: seq<T>, sizeOf: T -> nat, i: nat)
    requires i < |messages| && sizeOf(messages[i]) + base > MAX_RPC_SIZE
    ensures TooLarge(base, messages, sizeOf)
  {
  }

  lemma NoneTooLarge<T>(base: nat, messages: seq<T>, sizeOf: T -> nat)
    requires forall k :: 0 <= k < |messages| ==> sizeOf(messages[k]) + base <= MAX_RPC_SIZE
    ensures !TooLarge(base, messages, sizeOf)
  {
  }

  lemma LoadOne(j: Job, i: nat)
    requires j.Valid() && i < |j.sizes|
    ensures j.Load(i, i + 1) == j.head[i] + j.sizes[i]
  {
    assert j.sizes[i..i + 1] == [j.sizes[i]];
    assert Sum([j.sizes[i]]) == Sum([]) + j.sizes[i];
  }
}
