/**
 Cutting a list of sized items into consecutive chunks under a size limit, where the
 fixed part of a chunk (its header) depends on the index the chunk starts at.
 */
module Greedy {
  import opened Basics

  /** `head[s]` is the header size of a chunk that starts at item s. */
  datatype Job = Job(limit: nat, head: seq<nat>, sizes: seq<nat>) {

    predicate Valid() {
      |head| == |sizes|
    }

    /** Items cost at least two bytes and a header grows by at most one byte per item skipped. */
    ghost predicate Steady() {
      && Valid()
      && (forall i :: 0 <= i < |sizes| ==> sizes[i] >= 2)
      && (forall i :: 0 <= i < |head| - 1 ==> head[i + 1] <= head[i] + 1)
    }

    function Load(s: nat, e: nat): nat
      requires Valid() && s < e <= |sizes|
    {
      head[s] + Sum(sizes[s..e])
    }

    predicate Fits(s: nat, e: nat)
      requires Valid() && s < e <= |sizes|
    {
      Load(s, e) <= limit
    }

    /** No item is too large for a chunk of its own. */
    ghost predicate Feasible() {
      Valid() && forall i, e :: 0 <= i < |sizes| && e == i + 1 ==> Fits(i, e)
    }

    /** How far a chunk that already holds items s..e can be extended, one item at a time. */
    function MaxEnd(s: nat, e: nat): (m: nat)
      requires Valid() && s < e <= |sizes|
      ensures e <= m <= |sizes|
      decreases |sizes| - e
    {
      if e < |sizes| && Fits(s, e + 1) then MaxEnd(s, e + 1) else e
    }

    /** Where the chunks end when each one, from item s on, is extended as far as it goes. */
    function Ends(s: nat): seq<nat>
      requires Valid() && s <= |sizes|
      decreases |sizes| - s
    {
      if s == |sizes| then [] else [MaxEnd(s, s + 1)] + Ends(MaxEnd(s, s + 1))
    }

    /** `cuts` are the ends of nonempty consecutive chunks that cover the items from s on. */
    ghost predicate Covers(s: nat, cuts: seq<nat>)
      requires Valid()
      decreases |cuts|
    {
      if cuts == [] then s == |sizes|
      else s < cuts[0] <= |sizes| && Covers(cuts[0], cuts[1..])
    }

    ghost predicate AllFit(s: nat, cuts: seq<nat>)
      requires Valid() && Covers(s, cuts)
      decreases |cuts|
    {
      cuts != [] ==> Fits(s, cuts[0]) && AllFit(cuts[0], cuts[1..])
    }

    /** Every chunk but the last would overflow with one more item. */
    ghost predicate AllMaximal(s: nat, cuts: seq<nat>)
      requires Valid() && Covers(s, cuts)
      decreases |cuts|
    {
      cuts != [] ==>
        && (cuts[0] < |sizes| ==> !Fits(s, cuts[0] + 1))
        && AllMaximal(cuts[0], cuts[1..])
    }
  }

  lemma EndsStep(j: Job, s: nat)
    requires j.Valid() && s <= |j.sizes|
    ensures j.Ends(s) == if s == |j.sizes| then [] else [j.MaxEnd(s, s + 1)] + j.Ends(j.MaxEnd(s, s + 1))
  {
  }

  lemma LoadPush(j: Job, s: nat, e: nat)
    requires j.Valid() && s < e < |j.sizes|
    ensures j.Load(s, e + 1) == j.Load(s, e) + j.sizes[e]
  {
    assert j.sizes[s..e + 1][..e - s] == j.sizes[s..e];
  }

  lemma {:induction false} LoadGrows(j: Job, s: nat, e: nat, e': nat)
    requires j.Valid() && s < e <= e' <= |j.sizes|
    ensures j.Load(s, e) <= j.Load(s, e')
    decreases e'
  {
    if e < e' {
      LoadPush(j, s, e' - 1);
      LoadGrows(j, s, e, e' - 1);
    }
  }

  /** A chunk that fits still fits when items are dropped from its front, although its header may grow. */
  lemma {:induction false} DroppingShrinks(j: Job, s: nat, s': nat, e: nat)
    requires j.Steady() && s <= s' < e <= |j.sizes|
    ensures s < s' ==> j.Load(s', e) < j.Load(s, e)
    decreases s'
  {
    if s < s' {
      var p := s' - 1;
      DroppingShrinks(j, s, p, e);
      assert j.sizes[p..e] == [j.sizes[p]] + j.sizes[s'..e];
      SumAppend([j.sizes[p]], j.sizes[s'..e]);
      assert Sum([j.sizes[p]]) == j.sizes[p];
    }
  }

  /** The linear scan stops at the furthest end that fits. */
  lemma {:induction false} MaxEndIsFurthest(j: Job, s: nat, e: nat, far: nat)
    requires j.Valid() && s < e <= far <= |j.sizes| && j.Fits(s, e)
    ensures j.Fits(s, j.MaxEnd(s, e))
    ensures j.Fits(s, far) <==> far <= j.MaxEnd(s, e)
    decreases |j.sizes| - e
  {
    if e < |j.sizes| && j.Fits(s, e + 1) {
      MaxEndIsFurthest(j, s, e + 1, if far > e then far else e + 1);
    } else if far > e {
      LoadGrows(j, s, e + 1, far);
    }
  }

  /** The greedy chunks cover all items, fit, and are maximal. */
  lemma {:induction false} EndsAreGreedy(j: Job, s: nat)
    requires j.Feasible() && s <= |j.sizes|
    ensures j.Covers(s, j.Ends(s)) && j.AllFit(s, j.Ends(s)) && j.AllMaximal(s, j.Ends(s))
    decreases |j.sizes| - s
  {
    if s < |j.sizes| {
      var m := j.MaxEnd(s, s + 1);
      MaxEndIsFurthest(j, s, s + 1, m);
      if m < |j.sizes| {
        MaxEndIsFurthest(j, s, s + 1, m + 1);
      }
      EndsAreGreedy(j, m);
      assert j.Ends(s)[1..] == j.Ends(m);
    }
  }

  /** Greedy cutting from s never needs more chunks than another cutting that starts no later. */
  lemma {:induction false} StaysAhead(j: Job, s: nat, t: nat, cuts: seq<nat>)
    requires j.Steady() && j.Feasible() && t <= s <= |j.sizes|
    requires j.Covers(t, cuts) && j.AllFit(t, cuts)
    ensures |j.Ends(s)| <= |cuts|
    decreases |cuts|
  {
    if s < |j.sizes| {
      var c := cuts[0];
      if c <= s {
        StaysAhead(j, s, c, cuts[1..]);
      } else {
        DroppingShrinks(j, t, s, c);
        MaxEndIsFurthest(j, s, s + 1, c);
        StaysAhead(j, j.MaxEnd(s, s + 1), c, cuts[1..]);
      }
    }
  }

  /** Maximal fitting chunks are unique: nothing else satisfies what EndsAreGreedy promises. */
  lemma {:induction false} GreedyIsUnique(j: Job, s: nat, cuts: seq<nat>)
    requires j.Feasible() && s <= |j.sizes|
    requires j.Covers(s, cuts) && j.AllFit(s, cuts) && j.AllMaximal(s, cuts)
    ensures cuts == j.Ends(s)
    decreases |cuts|
  {
    hide *;
    FirstCut(j, s, cuts);
    EndsStep(j, s);
    if cuts != [] {
      GreedyIsUnique(j, cuts[0], cuts[1..]);
      assert cuts == [cuts[0]] + cuts[1..];
    }
  }

  /** The first of these chunks is the greedy one, and the others are maximal and fit again. */
  lemma FirstCut(j: Job, s: nat, cuts: seq<nat>)
    requires j.Feasible() && s <= |j.sizes|
    requires j.Covers(s, cuts) && j.AllFit(s, cuts) && j.AllMaximal(s, cuts)
    ensures j.Valid() && (cuts == [] <==> s == |j.sizes|)
    ensures cuts != [] ==>
              && s < cuts[0] <= |j.sizes| && j.MaxEnd(s, s + 1) == cuts[0]
              && j.Covers(cuts[0], cuts[1..]) && j.AllFit(cuts[0], cuts[1..]) && j.AllMaximal(cuts[0], cuts[1..])
  {
    if cuts != [] {
      var e := cuts[0];
      hide Job.Load, Job.Fits, Job.MaxEnd;
      MaxEndIsFurthest(j, s, s + 1, e);
      if e < |j.sizes| {
        MaxEndIsFurthest(j, s, s + 1, e + 1);
      }
    }
  }

  /** Where chunk i of a cutting starts. */
  function StartOf(s: nat, cuts: seq<nat>, i: nat): nat
    requires i <= |cuts|
  {
    if i == 0 then s else cuts[i - 1]
  }

  lemma {:induction false} CutAt(j: Job, s: nat, cuts: seq<nat>, i: nat)
    requires j.Valid() && j.Covers(s, cuts) && i < |cuts|
    ensures s <= StartOf(s, cuts, i) < cuts[i] <= |j.sizes|
    ensures cuts[|cuts| - 1] == |j.sizes|
    ensures j.AllFit(s, cuts) ==> j.Fits(StartOf(s, cuts, i), cuts[i])
    ensures j.AllMaximal(s, cuts) && cuts[i] < |j.sizes| ==> !j.Fits(StartOf(s, cuts, i), cuts[i] + 1)
    decreases |cuts|
  {
    if i > 0 {
      CutAt(j, cuts[0], cuts[1..], i - 1);
    } else if |cuts| > 1 {
      CutAt(j, cuts[0], cuts[1..], 0);
    }
  }
}
