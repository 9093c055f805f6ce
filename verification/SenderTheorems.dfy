/** What the outcome of a chunked operation tells its caller. */
module SenderTheorems {
  import opened Basics
  import opened Messages
  import opened Chunker
  import opened Batching
  import opened PlanTheorems
  import opened Continuations
  import opened Meaning
  import opened Creations
  import opened Containers
  import opened Sender

  /** The calls determine the outcome: counters, total and cause leave no choice. */
  lemma AddOutcomeIsDetermined(live: seq<Planned>, boolean: bool, calls: seq<Call>, r: Outcome, r': Outcome)
    requires Settled(live, boolean, calls, r) && Settled(live, boolean, calls, r')
    ensures r == r'
  {
    hide Replied, ItemsIn;
    if calls != [] {
      var last := |calls| - 1;
      assert calls[..|calls|] == calls;
      assert calls[last] in calls;
      RepliedLast(calls);
    }
  }

  /**
   A partial count stays within uint32. It is what the reported chunks replied exactly when the
   replies of all calls together fit uint32: otherwise the last chunk is reported as completed
   but its reply is left out.
   */
  lemma ReportedTotal(live: seq<Planned>, calls: seq<Call>, r: Outcome)
    requires Settled(live, false, calls, r) && r.Partial?
    ensures r.partial.CountSoFar? && r.partial.count <= UINT32_MAX && r.chunks <= |calls|
    ensures r.partial.count == Replied(calls[..r.chunks]) <==> Replied(calls) <= UINT32_MAX
    ensures r.cause == CountOverflow <==> Replied(calls) > UINT32_MAX
  {
    hide Replied, ItemsIn;
    RepliedLast(calls);
    if r.cause == CountOverflow {
      assert calls[..r.chunks] == calls;
    } else {
      assert r.cause.CausedBy? && calls[..|calls| - 1] == calls[..r.chunks];
    }
  }

  /**
   Two chunks answered with 0xFFFFFFFF and 1: whatever they carry, both are reported as
   completed, with a total of 0xFFFFFFFF.
   */
  lemma OverflowLosesReply(live: seq<Planned>, calls: seq<Call>)
    requires |live| == |calls| == 2 && calls[0].request == live[0].request && calls[1].request == live[1].request
    requires calls[0].result == Answered(Reply(UINT32_MAX, None)) && calls[1].result == Answered(Reply(1, None))
    ensures Settled(live, false, calls, Partial(2, ItemsIn(live), CountSoFar(UINT32_MAX), CountOverflow))
    ensures Replied(calls) == UINT32_MAX + 1
  {
    RepliedLast(calls);
    RepliedLast(calls[..1]);
    assert calls[..1][..0] == [] && Replied([]) == 0;
    assert live[..2] == live;
    hide Replied, ItemsIn;
  }

  /**
   How a counted add ends: raised exactly when its first call failed; with a total exactly when
   every chunk was answered and all replies together fit uint32, and then with their sum;
   otherwise partial, for the error of the last call or for overflow.
   */
  lemma CountVerdict(live: seq<Planned>, calls: seq<Call>, r: Outcome)
    requires Settled(live, false, calls, r)
    ensures r.Raised? <==> calls != [] && calls[0].result.Errored?
    ensures r.Raised? ==> |calls| == 1 && calls[0].result == Errored(r.error)
    ensures r.Total? <==>
              |calls| == |live| && (forall c <- calls :: c.result.Answered?) && Replied(calls) <= UINT32_MAX
    ensures r.Total? ==> r.count == Replied(calls)
    ensures r.Partial? <==> !r.Total? && !r.Raised?
    ensures r.Partial? ==>
              && r.items == ItemsIn(live[..r.chunks])
              && (forall i :: 0 <= i < |calls| - 1 ==> calls[i].result.Answered?)
              && r.cause == (if calls[|calls| - 1].result.Errored? then CausedBy(calls[|calls| - 1].result.error)
                             else CountOverflow)
  {
    hide Replied, ItemsIn;
    assert forall i :: 0 <= i < |calls| ==> calls[i] in calls;
    assert calls != [] ==> calls[|calls| - 1] in calls;
  }

  /** In boolean mode the partial result is true, unless a chunk was answered with zero. */
  lemma PartialFlag(live: seq<Planned>, calls: seq<Call>, r: Outcome)
    requires Settled(live, true, calls, r) && r.Partial?
    ensures r.partial == FlagSoFar(!(calls[|calls| - 1].result.Answered? && calls[|calls| - 1].result.reply.size == 0))
  {
    hide Replied, ItemsIn;
    RepliedLast(calls);
  }

  lemma RepliedLast(calls: seq<Call>)
    requires calls != []
    ensures var last := calls[|calls| - 1];
            Replied(calls) == Replied(calls[..|calls| - 1])
                              + (if last.result.Answered? then last.result.reply.size else 0)
  {
    assert calls == calls[..|calls| - 1] + [calls[|calls| - 1]];
    RepliedPush(calls[..|calls| - 1], calls[|calls| - 1]);
  }

  lemma CreationOutcomeIsDetermined(chunks: seq<Planned>, sequence: bool, calls: seq<Call>, r: Outcome, r': Outcome)
    requires SettledCreation(chunks, sequence, calls, r) && SettledCreation(chunks, sequence, calls, r')
    ensures r == r'
  {
    hide ItemsIn, ContinuationOf;
  }

  /**
   How a creation ends: raised exactly when the create request failed; created exactly when every
   chunk was answered and, for LIST, VECTOR and QUEUE, no continuation with zero; otherwise it
   is partial, the last call being the one that failed or was refused.
   */
  lemma CreationVerdict(request: Request, calls: seq<Call>, r: Outcome)
    requires request.CreateContainer? && CreateOutcome(request, calls, r) && calls != []
    ensures PlanOf(WithSharedTtl(request), true).Success?
    ensures var plan := PlanOf(WithSharedTtl(request), true).value;
            var sequence := request.kind in {LIST, VECTOR, QUEUE};
            && r.Raised? == calls[0].result.Errored? && (r.Raised? ==> |calls| == 1)
            && (r.Created? <==> |calls| == |plan| && forall i :: 0 <= i < |calls| ==> Taken(calls, i, sequence))
            && (r.Partial? <==> !r.Created? && !r.Raised?)
            && (r.Partial? ==>
                  && |calls| == r.chunks + 1 && r.items == ItemsIn(plan[..r.chunks])
                  && !Taken(calls, r.chunks, sequence)
                  && forall i :: 0 <= i < r.chunks ==> Taken(calls, i, sequence))
  {
    hide PlanOf, ItemsIn, ContinuationsPass, WithSharedTtl, SettledCreation;
    SettledVerdict(PlanOf(WithSharedTtl(request), true).value, IsSequenceKind(request.kind), calls, r);
  }

  lemma SettledVerdict(plan: seq<Planned>, sequence: bool, calls: seq<Call>, r: Outcome)
    requires SettledCreation(plan, sequence, calls, r)
    ensures r.Raised? == calls[0].result.Errored? && (r.Raised? ==> |calls| == 1)
    ensures r.Created? <==> |calls| == |plan| && forall i :: 0 <= i < |calls| ==> Taken(calls, i, sequence)
    ensures r.Partial? <==> !r.Created? && !r.Raised?
    ensures r.Partial? ==>
              && |calls| == r.chunks + 1 && r.items == ItemsIn(plan[..r.chunks])
              && !Taken(calls, r.chunks, sequence)
              && forall i :: 0 <= i < r.chunks ==> Taken(calls, i, sequence)
  {
    hide ItemsIn, ContinuationOf;
    assert forall i :: 1 <= i < |calls| - 1 ==> Continued(sequence, calls[i]);
    match r
    case Raised(_) => assert !Taken(calls, 0, sequence);
    case Partial(done, _, _, _) => assert !Taken(calls, done, sequence);
    case _ =>
  }

  /** The call was answered and, if it continues a sequence, not with zero. */
  predicate Taken(calls: seq<Call>, i: nat, sequence: bool)
    requires i < |calls|
  {
    calls[i].result.Answered? && (i > 0 && sequence ==> calls[i].result.reply.size != 0)
  }

  // ---------- what a creation puts on the wire ----------

  /** The request's key with the hint the server sent or, without one, the caller's own. */
  predicate CarriesHint(key: Key, own: Key, sent: Option<KeyHint>) {
    && key.payload == own.payload && key.compression == own.compression && key.clientId == own.clientId
    && key.hint == if sent.Some? then sent else own.hint
  }

  /** A continuation of a chunk: an add of its items to the container, of its type, under the hinted key. */
  predicate Continues(c: Request, request: Request, chunk: Request, sent: Option<KeyHint>)
    requires request.CreateContainer? && chunk.CreateContainer?
  {
    && c.AddTo? && CarriesHint(c.key, request.key, sent) && c.addKind == Some(request.kind)
    && c.ttl == None && c.pos == None && c.lists == chunk.lists
  }

  /** The hint a creation returns or reports: the server's or, without one, the unspecified hint. */
  predicate ReturnsHint(r: Outcome, sent: Option<KeyHint>) {
    var hint := if sent.Some? then sent.value else KeyHint(None, None);
    && (r.Created? ==> r.hint == hint)
    && (r.Partial? ==> r.partial == HintSoFar(hint))
  }

  /**
   The first call of a creation creates the container with the caller's key, type, ttl and lock;
   every further one adds the items of its chunk to it, with the hint the server returned; and
   this hint is what the caller gets.
   */
  lemma CreationCalls(request: Request, calls: seq<Call>, r: Outcome)
    requires request.CreateContainer? && CreateOutcome(request, calls, r) && calls != []
    ensures PlanOf(WithSharedTtl(request), true).Success?
    ensures var plan := PlanOf(WithSharedTtl(request), true).value;
            && |calls| <= |plan| && (forall chunk <- plan :: chunk.request.CreateContainer?)
            && calls[0].stub == CreateStub
            && calls[0].request == plan[0].request && calls[0].request.CreateContainer?
            && calls[0].request.key == request.key && calls[0].request.kind == request.kind
            && calls[0].request.ttl == request.ttl && calls[0].request.lock == request.lock
            && (calls[0].result.Answered? ==>
                  && ReturnsHint(r, calls[0].result.reply.hint)
                  && forall i :: 1 <= i < |calls| ==>
                       calls[i].stub == ItemStub(ContinuationRpc(request.kind))
                       && Continues(calls[i].request, request, plan[i].request, calls[0].result.reply.hint))
  {
    hide PlanOf, ItemsIn, ContinuationsPass, WithSharedTtl, Continuation, Cleared, Continues, ItemLists;
    var plan := PlanOf(WithSharedTtl(request), true).value;
    CreationLists(WithSharedTtl(request));
    SharedTtlKeeps(request);
    assert plan[0] in plan;
    HeaderKept(plan[0].request, WithSharedTtl(request));
    forall i | 1 <= i < |calls| && calls[0].result.Answered?
      ensures calls[i].stub == ItemStub(ContinuationRpc(request.kind))
      ensures Continues(calls[i].request, request, plan[i].request, calls[0].result.reply.hint)
    {
      assert plan[i] in plan;
      HeaderKept(plan[i].request, WithSharedTtl(request));
      ContinuationContinues(plan[i].request, request, calls[0].result.reply.hint);
    }
  }

  lemma HeaderKept(chunk: Request, request: Request)
    requires chunk.CreateContainer? && request.CreateContainer? && Cleared(chunk) == Cleared(request)
    ensures chunk.key == request.key && chunk.kind == request.kind
    ensures chunk.ttl == request.ttl && chunk.lock == request.lock
  {
  }

  lemma ContinuationContinues(chunk: Request, request: Request, hint: Option<KeyHint>)
    requires chunk.CreateContainer? && request.CreateContainer?
    requires chunk.key == request.key && chunk.kind == request.kind
    ensures Continues(ContinuationOf(chunk, hint), request, chunk, hint)
  {
  }

  /** The position of the first chunk that was answered with zero, if any. */
  function FirstZero(calls: seq<Call>): (k: nat)
    ensures k <= |calls|
    ensures k < |calls| ==> calls[k].result.Answered? && calls[k].result.reply.size == 0
    ensures forall i :: 0 <= i < k ==> !(calls[i].result.Answered? && calls[i].result.reply.size == 0)
  {
    if calls == [] || (calls[0].result.Answered? && calls[0].result.reply.size == 0) then 0
    else
      assert forall i :: 0 < i < 1 + FirstZero(calls[1..]) ==> calls[i] == calls[1..][i - 1];
      1 + FirstZero(calls[1..])
  }

  /**
   In boolean mode, without RPC failure or overflow: true exactly when every planned chunk was
   answered with a positive count, false exactly when the first was answered with zero, and the
   partial error, saying how many chunks went before, exactly when a later one was.
   */
  lemma BooleanVerdict(live: seq<Planned>, calls: seq<Call>, r: Outcome)
    requires Settled(live, true, calls, r)
    requires (forall c <- calls :: c.result.Answered?) && Replied(calls) <= UINT32_MAX
    ensures r == Accepted(true) <==> |calls| == |live| && FirstZero(calls) == |calls|
    ensures r == Accepted(false) <==> calls != [] && FirstZero(calls) == 0
    ensures FirstZero(calls) == |calls| ==> |calls| == |live|
    ensures 0 < FirstZero(calls) < |calls| <==> r.Partial?
    ensures r.Partial? ==>
              r == Partial(FirstZero(calls), ItemsIn(live[..FirstZero(calls)]), FlagSoFar(false), ChunkRejected)
              && FirstZero(calls) == |calls| - 1
  {
    hide Replied, ItemsIn;
    assert forall i :: 0 <= i < |calls| - 1 ==> calls[i].result.reply.size > 0;
    assert forall i :: 0 <= i < |calls| ==> calls[i] in calls;
    match r {
      case Partial(chunks, _, _, CountOverflow) => assert false;
      case _ =>
    }
  }

  // ---------- which items were acknowledged ----------

  ghost predicate CountsMatch(chunks: seq<Planned>) {
    forall chunk <- chunks :: ItemsOf(chunk.request).Success? && chunk.count == |ItemsOf(chunk.request).value|
  }

  lemma {:induction false} ItemsInLists(chunks: seq<Planned>)
    requires CountsMatch(chunks)
    ensures ItemsIn(chunks) == |Flatten(ItemLists(chunks))|
    decreases |chunks|
  {
    hide ItemsOf;
    if chunks == [] {
      assert Counts(chunks) == [] && ItemLists(chunks) == [];
    } else {
      assert Counts(chunks) == [chunks[0].count] + Counts(chunks[1..]);
      SumAppend([chunks[0].count], Counts(chunks[1..]));
      assert Sum([chunks[0].count]) == Sum([]) + chunks[0].count;
      assert ItemLists(chunks)[1..] == ItemLists(chunks[1..]);
      ItemsInLists(chunks[1..]);
    }
  }

  lemma ListsAppend(a: seq<Planned>, b: seq<Planned>)
    requires CountsMatch(a) && CountsMatch(b)
    ensures CountsMatch(a + b) && Flatten(ItemLists(a + b)) == Flatten(ItemLists(a)) + Flatten(ItemLists(b))
  {
    hide ItemsOf;
    assert ItemLists(a + b) == ItemLists(a) + ItemLists(b);
    FlattenAppend(ItemLists(a), ItemLists(b));
  }

  lemma ItemsInAppend(a: seq<Planned>, b: seq<Planned>)
    ensures ItemsIn(a + b) == ItemsIn(a) + ItemsIn(b)
  {
    assert Counts(a + b) == Counts(a) + Counts(b);
    SumAppend(Counts(a), Counts(b));
  }

  lemma {:induction false} ItemsInReverse(chunks: seq<Planned>)
    ensures ItemsIn(Reverse(chunks)) == ItemsIn(chunks)
  {
    if chunks != [] {
      ItemsInReverse(chunks[1..]);
      ItemsInAppend(Reverse(chunks[1..]), [chunks[0]]);
      ItemsInAppend([chunks[0]], chunks[1..]);
      assert [chunks[0]] + chunks[1..] == chunks;
    }
  }

  /** The first k chunks, in item order, hold a prefix of the items and the rest the remaining ones. */
  lemma {:induction false} PrefixItems(request: Request, creation: bool, k: nat)
    requires PlanOf(request, creation).Success? && k <= |Chunks(request, creation)|
    ensures var chunks := Chunks(request, creation);
            && CountsMatch(chunks[..k]) && Offset(chunks, k) <= |ItemsOf(request).value|
            && Flatten(ItemLists(chunks[..k])) == ItemsOf(request).value[..Offset(chunks, k)]
    decreases k
  {
    hide *;
    var chunks := Chunks(request, creation);
    if k == 0 {
      NothingYet(chunks);
    } else {
      WholeOffset(request, creation);
      PrefixItems(request, creation, k - 1);
      ChunksCoverExactly(request, creation, k - 1);
      OffsetStep(chunks, k - 1);
      PrefixStep(chunks, k - 1, ItemsOf(request).value);
    }
  }

  lemma NothingYet(chunks: seq<Planned>)
    ensures CountsMatch(chunks[..0]) && Offset(chunks, 0) == 0 && Flatten(ItemLists(chunks[..0])) == []
  {
  }

  lemma PrefixStep(chunks: seq<Planned>, k: nat, items: seq<Item>)
    requires k < |chunks| && CountsMatch(chunks[..k])
    requires Offset(chunks, k + 1) == Offset(chunks, k) + chunks[k].count <= |items|
    requires ItemsOf(chunks[k].request) == Success(items[Offset(chunks, k)..Offset(chunks, k + 1)])
    requires Flatten(ItemLists(chunks[..k])) == items[..Offset(chunks, k)]
    ensures CountsMatch(chunks[..k + 1])
    ensures Flatten(ItemLists(chunks[..k + 1])) == items[..Offset(chunks, k + 1)]
  {
    hide ItemsOf, Offset;
    assert chunks[..k + 1] == chunks[..k] + [chunks[k]];
    ListsAppend(chunks[..k], [chunks[k]]);
    assert ItemLists([chunks[k]]) == [ItemsOf(chunks[k].request).value];
    assert Flatten(ItemLists([chunks[k]])) == ItemsOf(chunks[k].request).value + Flatten<Item>([]);
  }

  /**
   The items reported for k sent chunks are exactly a prefix of the input or, for an
   insert-after, whose chunks go last first, exactly a suffix.
   */
  ghost predicate ReportsItems(request: Request, plan: seq<Planned>, k: nat)
    requires k <= |plan| && ItemsOf(request).Success?
  {
    var items := ItemsOf(request).value;
    var n := ItemsIn(plan[..k]);
    && n <= |items|
    && if ReversesChunks(request) then
         CountsMatch(Reverse(plan[..k])) && Flatten(ItemLists(Reverse(plan[..k]))) == items[|items| - n..]
       else CountsMatch(plan[..k]) && Flatten(ItemLists(plan[..k])) == items[..n]
  }

  lemma ReportedItems(request: Request, creation: bool, k: nat)
    requires PlanOf(request, creation).Success? && k <= |PlanOf(request, creation).value|
    ensures ItemsOf(request).Success? && ReportsItems(request, PlanOf(request, creation).value, k)
  {
    hide *;
    var chunks, m := Chunks(request, creation), |Chunks(request, creation)|;
    WholeOffset(request, creation);
    PlanReversal(request, creation);
    PrefixItems(request, creation, m);
    assert chunks[..m] == chunks;
    if ReversesChunks(request) {
      PrefixItems(request, creation, m - k);
      ReportsSuffix(request, ItemsOf(request).value, chunks, m - k, Offset(chunks, m - k));
    } else {
      PrefixItems(request, creation, k);
      ReportsPrefix(request, chunks, k);
    }
  }

  lemma ReportsPrefix(request: Request, plan: seq<Planned>, k: nat)
    requires k <= |plan| && ItemsOf(request).Success? && !ReversesChunks(request)
    requires CountsMatch(plan[..k]) && Offset(plan, k) <= |ItemsOf(request).value|
    requires Flatten(ItemLists(plan[..k])) == ItemsOf(request).value[..Offset(plan, k)]
    ensures ReportsItems(request, plan, k)
  {
    hide ItemsOf, Offset, CountsMatch, ItemsIn;
    ItemsInLists(plan[..k]);
  }

  lemma ReportsSuffix(request: Request, items: seq<Item>, chunks: seq<Planned>, m: nat, o: nat)
    requires ItemsOf(request) == Success(items) && ReversesChunks(request) && m <= |chunks| && o <= |items|
    requires CountsMatch(chunks) && CountsMatch(chunks[..m])
    requires Flatten(ItemLists(chunks)) == items && Flatten(ItemLists(chunks[..m])) == items[..o]
    ensures ReportsItems(request, Reverse(chunks), |chunks| - m)
  {
    hide *;
    var b := chunks[m..];
    ReverseSlice(chunks, m);
    SuffixMatches(chunks, m);
    ListsAppend(chunks[..m], b);
    ItemsInReverse(b);
    ItemsInLists(b);
    ReportsSuffixIs(request, items, Reverse(chunks), b);
  }

  lemma ReverseSlice<T>(xs: seq<T>, m: nat)
    requires m <= |xs|
    ensures xs == xs[..m] + xs[m..] && |Reverse(xs)| == |xs|
    ensures Reverse(xs)[..|xs| - m] == Reverse(xs[m..]) && Reverse(Reverse(xs[m..])) == xs[m..]
  {
    hide Reverse;
    ReverseTwice(xs[m..]);
  }

  lemma ReportsSuffixIs(request: Request, items: seq<Item>, plan: seq<Planned>, b: seq<Planned>)
    requires ItemsOf(request) == Success(items) && ReversesChunks(request) && |b| <= |plan|
    requires Reverse(plan[..|b|]) == b && CountsMatch(b) && ItemsIn(plan[..|b|]) == |Flatten(ItemLists(b))| <= |items|
    requires Flatten(ItemLists(b)) == items[|items| - |Flatten(ItemLists(b))|..]
    ensures ReportsItems(request, plan, |b|)
  {
    hide ItemsOf, CountsMatch, ItemsIn, ItemLists;
  }

  lemma SuffixMatches(chunks: seq<Planned>, k: nat)
    requires k <= |chunks| && CountsMatch(chunks)
    ensures CountsMatch(chunks[..k]) && CountsMatch(chunks[k..])
  {
    hide ItemsOf;
  }

  // ---------- size errors of a creation ----------

  /** For every container type but UNDEFINED, a planned creation passes the preflight of continuations. */
  lemma CreationPreflightPasses(request: Request)
    requires request.CreateContainer? && request.kind != 0 && PlanOf(WithSharedTtl(request), true).Success?
    ensures ContinuationsPass(PlanOf(WithSharedTtl(request), true).value)
  {
    var shared := WithSharedTtl(request);
    hide *;
    PlanReversal(shared, true);
    CreateIsPlain(shared);
    var chunks := Chunks(shared, true);
    forall i | 1 <= i < |chunks|
      ensures ByteSize(ContinuationOf(chunks[i].request, Some(FULL_HINT))) <= MAX_RPC_SIZE
    {
      ContinuationsFit(shared, i, Some(FULL_HINT));
      ContinuationOfCreate(chunks[i].request, Some(FULL_HINT));
    }
    AllPass(chunks);
  }

  lemma AllPass(chunks: seq<Planned>)
    requires forall i :: 1 <= i < |chunks| ==>
               ByteSize(ContinuationOf(chunks[i].request, Some(FULL_HINT))) <= MAX_RPC_SIZE
    ensures ContinuationsPass(chunks)
  {
    hide ByteSize, ContinuationOf;
  }
}
