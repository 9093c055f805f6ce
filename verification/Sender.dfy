/**
 Sending planned chunks over one connection (the chunked add and create of the direct
 clients; the synchronous and the asynchronous client run the same loops).
 */
module Sender {
  import opened Basics
  import opened Errors
  import opened Messages
  import opened Operation
  import opened Chunker
  import opened Batching
  import opened PlanTheorems
  import opened Meaning
  import opened Continuations
  import opened Creations
  import opened Containers

  /** The reply to an add has a size, the reply to a create a hint. */
  datatype Reply = Reply(size: uint32, hint: Option<KeyHint>)

  datatype CallResult = Answered(reply: Reply) | Errored(error: Error)

  /** A use of the connection is refused at some time before sending, or sent. */
  datatype Fate = Refused(at: int) | Dispatched(issue: Issue)

  /** The method of the service: createContainer, or one of those that add and remove. */
  datatype Stub = CreateStub | ItemStub(rpc: Rpc)

  datatype Call = Call(stub: Stub, request: Request, fate: Fate, result: CallResult)

  datatype PartialResult = FlagSoFar(flag: bool) | CountSoFar(count: nat) | HintSoFar(hint: KeyHint)

  datatype Cause = CausedBy(error: Error) | CountOverflow | ChunkRejected

  /** How a chunked operation ends. */
  datatype Outcome =
    | Total(count: nat)
    | Accepted(flag: bool)
    | Created(hint: KeyHint)
    | Raised(error: Error)
    | Partial(chunks: nat, items: nat, partial: PartialResult, cause: Cause)

  predicate IsRpcError(e: Error) {
    e.Unavailable? || e.FailedPrecondition? || e.DeadlineExceeded? || e.OtherRpc?
  }

  /** What is known of every call: checked in time and sent, or refused for the deadline or its size. */
  predicate CallOk(end: Option<int>, c: Call) {
    match c.fate
    case Dispatched(issue) =>
      OnTime(end, issue) && ByteSize(c.request) <= MAX_RPC_SIZE && (c.result.Errored? ==> IsRpcError(c.result.error))
    case Refused(at) =>
      || (c.result == Errored(DeadlineExceeded) && end.Some? && at >= end.value)
      || (c.result == Errored(RequestTooLarge) && ByteSize(c.request) > MAX_RPC_SIZE)
  }

  ghost predicate CallsOk(end: Option<int>, calls: seq<Call>) {
    forall c <- calls :: CallOk(end, c)
  }

  /** A client of one server, whose server may answer anything. */
  class Node {
    var closed: bool
    var calls: seq<Call>

    constructor ()
      ensures !closed && calls == []
    {
      closed, calls := false, [];
    }

    method Answer() returns (r: CallResult)
      ensures r.Errored? ==> IsRpcError(r.error)
    {
      r := *;
      if r.Errored? && !IsRpcError(r.error) {
        r := Errored(OtherRpc(2));
      }
    }

    /** `_call` */
    method Invoke(ctx: Context, stub: Stub, request: Request, timeout: Option<int>) returns (r: CallResult)
      modifies this`calls, ctx`now
      ensures ctx.now >= old(ctx.now)
      ensures |calls| == |old(calls)| + 1 && calls[..|old(calls)|] == old(calls)
      ensures var c := calls[|old(calls)|];
              && c.stub == stub && c.request == request && c.result == r
              && CallOk(ctx.deadline, c) && CallInTurn(c, old(ctx.now), ctx.now)
              && (c.fate.Dispatched? ==> c.fate.issue.requested == timeout)
    {
      var budget := ctx.Remaining(timeout);
      if budget.Failure? {
        r := Errored(budget.error);
        calls := calls + [Call(stub, request, Refused(ctx.now), r)];
        return;
      }
      var asked := ctx.now;
      var checked := Check(ctx, request);
      if checked.Failure? {
        r := Errored(checked.error);
        calls := calls + [Call(stub, request, Refused(ctx.now), r)];
        return;
      }
      var checkedAt := ctx.now;
      var at := ctx.Monotonic();
      r := Answer();
      calls := calls + [Call(stub, request, Dispatched(Issue(timeout, asked, checkedAt, at, budget.value)), r)];
    }
  }

  // ---------- what a finished chunked add means ----------

  predicate Good(boolean: bool, c: Call) {
    c.result.Answered? && (boolean ==> c.result.reply.size > 0)
  }

  /** Every call carries the next chunk, and all but the last were accepted. */
  ghost predicate Sent(live: seq<Planned>, boolean: bool, calls: seq<Call>) {
    && |calls| <= |live|
    && (forall i :: 0 <= i < |calls| ==> calls[i].request == live[i].request)
    && (forall i :: 0 <= i < |calls| - 1 ==> Good(boolean, calls[i]))
  }

  function Sizes(calls: seq<Call>): (sizes: seq<nat>)
    ensures |sizes| == |calls|
  {
    seq(|calls|, i requires 0 <= i < |calls| =>
      if calls[i].result.Answered? then calls[i].result.reply.size else 0)
  }

  function Counts(chunks: seq<Planned>): (counts: seq<nat>)
    ensures |counts| == |chunks|
  {
    seq(|chunks|, i requires 0 <= i < |chunks| => chunks[i].count)
  }

  function ItemsIn(chunks: seq<Planned>): nat {
    Sum(Counts(chunks))
  }

  function Replied(calls: seq<Call>): nat {
    Sum(Sizes(calls))
  }

  function SoFar(boolean: bool, total: nat): PartialResult {
    if boolean then FlagSoFar(true) else CountSoFar(total)
  }

  /** The outcome of a chunked add, read off the calls it made. */
  ghost predicate Settled(live: seq<Planned>, boolean: bool, calls: seq<Call>, r: Outcome) {
    && Sent(live, boolean, calls)
    && (calls != [] ==> Replied(calls[..|calls| - 1]) <= UINT32_MAX)
    && match r
       case Total(count) =>
         !boolean && |calls| == |live| && (forall c <- calls :: Good(boolean, c))
         && count == Replied(calls) <= UINT32_MAX
       case Accepted(true) =>
         boolean && |calls| == |live| && (forall c <- calls :: Good(boolean, c)) && Replied(calls) <= UINT32_MAX
       case Accepted(false) =>
         boolean && |calls| == 1 && calls[0].result.Answered? && calls[0].result.reply.size == 0
       case Created(_) => false
       case Raised(error) => |calls| == 1 && calls[0].result == Errored(error)
       case Partial(chunks, items, partial, CausedBy(error)) =>
         |calls| == chunks + 1 >= 2 && calls[chunks].result == Errored(error)
         && items == ItemsIn(live[..chunks]) && partial == SoFar(boolean, Replied(calls[..chunks]))
       case Partial(chunks, items, partial, CountOverflow) =>
         |calls| == chunks >= 1 && calls[chunks - 1].result.Answered? && Replied(calls) > UINT32_MAX
         && items == ItemsIn(live[..chunks]) && partial == SoFar(boolean, Replied(calls[..chunks - 1]))
       case Partial(chunks, items, partial, ChunkRejected) =>
         boolean && |calls| == chunks + 1 >= 2 && calls[chunks].result.Answered? && calls[chunks].result.reply.size == 0
         && items == ItemsIn(live[..chunks]) && partial == FlagSoFar(false)
  }

  lemma RepliedPush(calls: seq<Call>, c: Call)
    ensures Replied(calls + [c]) == Replied(calls) + (if c.result.Answered? then c.result.reply.size else 0)
  {
    assert Sizes(calls + [c])[..|calls|] == Sizes(calls);
  }

  lemma ItemsPush(chunks: seq<Planned>, chunk: Planned)
    ensures ItemsIn(chunks + [chunk]) == ItemsIn(chunks) + chunk.count
  {
    assert Counts(chunks + [chunk])[..|chunks|] == Counts(chunks);
  }

  lemma {:induction false} LiveAppend(a: seq<Planned>, b: seq<Planned>)
    ensures Live(a + b) == Live(a) + Live(b)
  {
    if a == [] {
      assert a + b == b;
    } else {
      assert (a + b)[1..] == a[1..] + b;
      LiveAppend(a[1..], b);
    }
  }

  lemma LivePush(chunks: seq<Planned>, i: nat)
    requires i < |chunks|
    ensures Live(chunks[..i + 1]) == Live(chunks[..i]) + (if chunks[i].count == 0 then [] else [chunks[i]])
    ensures |Live(chunks[..i + 1])| <= |Live(chunks)|
    ensures chunks[i].count > 0 ==>
              |Live(chunks[..i])| < |Live(chunks)| && Live(chunks)[|Live(chunks[..i])|] == chunks[i]
    ensures Live(chunks[..i]) == Live(chunks)[..|Live(chunks[..i])|]
  {
    assert chunks[..i + 1] == chunks[..i] + [chunks[i]];
    assert [chunks[i]][1..] == [];
    LiveAppend(chunks[..i], [chunks[i]]);
    assert chunks == chunks[..i] + chunks[i..] == chunks[..i + 1] + chunks[i + 1..];
    LiveAppend(chunks[..i], chunks[i..]);
    LiveAppend(chunks[..i + 1], chunks[i + 1..]);
  }

  /** The ledger while all calls so far were accepted. */
  ghost predicate Ledger(live: seq<Planned>, boolean: bool, calls: seq<Call>, total: nat, done: nat,
                         acknowledged: nat) {
    && Sent(live, boolean, calls) && (forall c <- calls :: Good(boolean, c))
    && acknowledged == |calls| && done == ItemsIn(live[..|calls|])
    && total == Replied(calls) <= UINT32_MAX
  }

  /** Calling the next live chunk either extends the ledger or settles the operation. */
  lemma LedgerStep(live: seq<Planned>, boolean: bool, calls: seq<Call>, total: nat, done: nat, acknowledged: nat,
                   c: Call)
    requires Ledger(live, boolean, calls, total, done, acknowledged)
    requires |calls| < |live| && c.request == live[|calls|].request
    ensures var count := live[|calls|].count;
            match c.result
            case Errored(error) =>
              if acknowledged > 0 then
                Settled(live, boolean, calls + [c], Partial(acknowledged, done, SoFar(boolean, total), CausedBy(error)))
              else Settled(live, boolean, calls + [c], Raised(error))
            case Answered(reply) =>
              if total + reply.size > UINT32_MAX then
                Settled(live, boolean, calls + [c],
                        Partial(acknowledged + 1, done + count, SoFar(boolean, total), CountOverflow))
              else if boolean && reply.size == 0 then
                if acknowledged > 0 then
                  Settled(live, boolean, calls + [c], Partial(acknowledged, done, FlagSoFar(false), ChunkRejected))
                else Settled(live, boolean, calls + [c], Accepted(false))
              else
                Ledger(live, boolean, calls + [c], total + reply.size, done + count, acknowledged + 1)
  {
    RepliedPush(calls, c);
    ItemsPush(live[..|calls|], live[|calls|]);
    assert live[..|calls| + 1] == live[..|calls|] + [live[|calls|]];
    assert (calls + [c])[..|calls|] == calls;
    hide Replied, ItemsIn;
  }

  /** The chunks of a plan are within the limit, so no call is refused for its size. */
  lemma PlannedFit(request: Request, creation: bool)
    requires PlanOf(request, creation).Success?
    ensures AllFit(PlanOf(request, creation).value)
  {
    hide ByteSize, PlanOf, Chunks, ReversesChunks;
    PlanReversal(request, creation);
    var chunks := Chunks(request, creation);
    forall i | 0 <= i < |chunks|
      ensures ByteSize(chunks[i].request) <= MAX_RPC_SIZE
    {
      ChunksFit(request, creation, i);
    }
  }

  /** No call failed for its size: oversized input is found by the plan, before the first RPC. */
  ghost predicate NoSizeError(calls: seq<Call>) {
    forall c <- calls :: c.result != Errored(RequestTooLarge)
  }

  /** The connection was used for these further calls, checked in time and never refused for size. */
  ghost predicate Extends(before: seq<Call>, after: seq<Call>, end: Option<int>) {
    && |before| <= |after| && after[..|before|] == before
    && CallsOk(end, after[|before|..]) && NoSizeError(after[|before|..])
  }

  function NewCalls(before: seq<Call>, after: seq<Call>): seq<Call> {
    if |before| <= |after| then after[|before|..] else []
  }

  lemma ExtendsNone(before: seq<Call>, end: Option<int>)
    ensures Extends(before, before, end) && NewCalls(before, before) == []
  {
  }

  lemma ExtendsPush(before: seq<Call>, now: seq<Call>, after: seq<Call>, end: Option<int>)
    requires Extends(before, now, end)
    requires |after| == |now| + 1 && after[..|now|] == now
    requires CallOk(end, after[|now|]) && ByteSize(after[|now|].request) <= MAX_RPC_SIZE
    ensures Extends(before, after, end)
    ensures NewCalls(before, after) == NewCalls(before, now) + [after[|now|]]
  {
    hide CallOk, ByteSize;
    FitsNoSizeError(end, after[|now|]);
    assert after[|before|..] == now[|before|..] + [after[|now|]];
  }

  // ---------- the calls in time ----------

  /** The RPCs among the calls. */
  function IssuesOf(calls: seq<Call>): seq<Issue> {
    if calls == [] then []
    else
      var last := calls[|calls| - 1];
      IssuesOf(calls[..|calls| - 1]) + if last.fate.Dispatched? then [last.fate.issue] else []
  }

  lemma {:induction false} IssuesOfAppend(a: seq<Call>, b: seq<Call>)
    ensures IssuesOf(a + b) == IssuesOf(a) + IssuesOf(b)
  {
    hide *;
    if b == [] {
      assert a + b == a;
      IssuesOfNone();
    } else {
      var n := |b| - 1;
      IssuesOfAppend(a, b[..n]);
      assert a + b == (a + b[..n]) + [b[n]] && b == b[..n] + [b[n]];
      IssuesOfPush(a + b[..n], b[n]);
      IssuesOfPush(b[..n], b[n]);
    }
  }

  lemma IssuesOfNone()
    ensures IssuesOf([]) == []
  {
  }

  lemma IssuesOfPush(calls: seq<Call>, c: Call)
    ensures IssuesOf(calls + [c]) == IssuesOf(calls) + if c.fate.Dispatched? then [c.fate.issue] else []
  {
    assert (calls + [c])[..|calls|] == calls && (calls + [c])[|calls|] == c;
  }

  lemma {:induction false} CallsOnTime(end: int, calls: seq<Call>)
    requires CallsOk(Some(end), calls)
    ensures AllOnTime(end, IssuesOf(calls))
  {
    hide ByteSize, IssuesOf;
    if calls == [] {
      IssuesOfNone();
    } else {
      var n := |calls| - 1;
      assert calls == calls[..n] + [calls[n]];
      CallsOnTime(end, calls[..n]);
      IssuesOfPush(calls[..n], calls[n]);
      assert CallOk(Some(end), calls[n]);
    }
  }

  /** Every RPC was made with the timeout its caller asked for, as far as the deadline allowed. */
  ghost predicate AllRequested(issues: seq<Issue>, timeout: Option<int>) {
    forall i <- issues :: i.requested == timeout
  }

  /** The connection's log has grown, by RPCs made in turn since `from`, all with this requested timeout. */
  ghost predicate MadeInTurn(before: seq<Call>, after: seq<Call>, from: int, to: int, timeout: Option<int>) {
    var issues := IssuesOf(NewCalls(before, after));
    InTurn(issues, from, to) && AllRequested(issues, timeout)
  }

  lemma MadeNone(before: seq<Call>, from: int, to: int, timeout: Option<int>)
    requires from <= to
    ensures MadeInTurn(before, before, from, to, timeout)
  {
    assert NewCalls(before, before) == [];
  }

  lemma MadeWider(before: seq<Call>, after: seq<Call>, from: int, to: int, from': int, to': int, timeout: Option<int>)
    requires MadeInTurn(before, after, from, to, timeout) && from' <= from && to <= to'
    ensures MadeInTurn(before, after, from', to', timeout)
  {
    hide IssuesOf;
    InTurnWider(IssuesOf(NewCalls(before, after)), from, to, from', to');
  }

  lemma MadePush(before: seq<Call>, now: seq<Call>, c: Call, after: seq<Call>, from: int, mid: int, to: int,
                 timeout: Option<int>)
    requires MadeInTurn(before, now, from, mid, timeout) && NewCalls(before, after) == NewCalls(before, now) + [c]
    requires mid <= to && CallInTurn(c, mid, to) && (c.fate.Dispatched? ==> c.fate.issue.requested == timeout)
    ensures MadeInTurn(before, after, from, to, timeout)
  {
    hide IssuesOf, InTurn;
    var issues := IssuesOf(NewCalls(before, now));
    IssuesOfPush(NewCalls(before, now), c);
    match c.fate
    case Dispatched(issue) => InTurnPush(issues, issue, from, mid, to);
    case Refused(_) =>
      assert issues + [] == issues;
      InTurnWider(issues, from, mid, from, to);
  }

  predicate CallInTurn(c: Call, from: int, to: int) {
    match c.fate
    case Dispatched(issue) => from <= issue.asked <= issue.checked <= issue.at <= to
    case Refused(at) => from <= at <= to
  }

  /** `_call_add_chunked` and its asynchronous twin */
  method AddChunked(ctx: Context, node: Node, rpc: Rpc, request: Request, boolean: bool, timeout: Option<int>)
    returns (r: Outcome)
    modifies node`calls, ctx`now
    ensures ctx.now >= old(ctx.now) && Extends(old(node.calls), node.calls, ctx.deadline)
    ensures MadeInTurn(old(node.calls), node.calls, old(ctx.now), ctx.now, timeout)
    ensures AllUse(NewCalls(old(node.calls), node.calls), rpc)
    ensures AddOutcome(request, boolean, NewCalls(old(node.calls), node.calls), r)
            || (r == Raised(DeadlineExceeded) && ctx.Expired() && node.calls == old(node.calls))
  {
    hide MadeInTurn;
    ghost var before, from := node.calls, ctx.now;
    ExtendsNone(before, ctx.deadline);
    var planned := Plan(ctx, request, false);
    MadeNone(before, from, ctx.now, timeout);
    if planned.Failure? {
      return Raised(planned.error);
    }
    PlannedFit(request, false);
    ghost var mid := ctx.now;
    r := SendPlanned(ctx, node, rpc, planned.value, boolean, timeout);
    MadeWider(before, node.calls, mid, ctx.now, from, ctx.now, timeout);
  }

  /** All calls went to this method of the service. */
  ghost predicate AllUse(calls: seq<Call>, rpc: Rpc) {
    forall c <- calls :: c.stub == ItemStub(rpc)
  }

  lemma UseNone(rpc: Rpc)
    ensures AllUse([], rpc)
  {
  }

  lemma UsePush(calls: seq<Call>, c: Call, rpc: Rpc)
    requires AllUse(calls, rpc) && c.stub == ItemStub(rpc)
    ensures AllUse(calls + [c], rpc)
  {
  }

  /** Either the plan fails before anything is sent, or its transmitted chunks settle the outcome. */
  ghost predicate AddOutcome(request: Request, boolean: bool, calls: seq<Call>, r: Outcome) {
    match PlanOf(request, false)
    case Failure(error) => calls == [] && r == Raised(error)
    case Success(chunks) => Settled(Live(chunks), boolean, calls, r)
  }

  ghost predicate AllFit(chunks: seq<Planned>) {
    forall chunk <- chunks :: ByteSize(chunk.request) <= MAX_RPC_SIZE
  }

  /** The sending loop. */
  method SendPlanned(ctx: Context, node: Node, rpc: Rpc, chunks: seq<Planned>, boolean: bool, timeout: Option<int>)
    returns (r: Outcome)
    requires AllFit(chunks)
    modifies node`calls, ctx`now
    ensures ctx.now >= old(ctx.now) && Extends(old(node.calls), node.calls, ctx.deadline)
    ensures MadeInTurn(old(node.calls), node.calls, old(ctx.now), ctx.now, timeout)
    ensures AllUse(NewCalls(old(node.calls), node.calls), rpc)
    ensures Settled(Live(chunks), boolean, NewCalls(old(node.calls), node.calls), r)
  {
    hide *;
    ghost var before, live, from := node.calls, Live(chunks), ctx.now;
    var total: nat, done: nat, acknowledged: nat := 0, 0, 0;
    ExtendsNone(before, ctx.deadline);
    MadeNone(before, from, ctx.now, timeout);
    UseNone(rpc);
    NothingSent(live, boolean);
    assert chunks[..0] == [];
    for i := 0 to |chunks|
      invariant ctx.now >= from && Extends(before, node.calls, ctx.deadline) && |before| <= |node.calls|
      invariant MadeInTurn(before, node.calls, from, ctx.now, timeout)
      invariant AllUse(NewCalls(before, node.calls), rpc)
      invariant |NewCalls(before, node.calls)| == |Live(chunks[..i])|
      invariant Ledger(live, boolean, NewCalls(before, node.calls), total, done, acknowledged)
    {
      var chunk, count := chunks[i].request, chunks[i].count;
      LivePush(chunks, i);
      if count == 0 {
        continue;
      }
      ghost var now, mid := node.calls, ctx.now;
      FitsAt(chunks, i);
      var result := node.Invoke(ctx, ItemStub(rpc), chunk, timeout);
      ExtendsPush(before, now, node.calls, ctx.deadline);
      MadePush(before, now, node.calls[|now|], node.calls, from, mid, ctx.now, timeout);
      UsePush(NewCalls(before, now), node.calls[|now|], rpc);
      LedgerStep(live, boolean, NewCalls(before, now), total, done, acknowledged, node.calls[|now|]);
      match result {
        case Errored(error) =>
          return if acknowledged > 0 then Partial(acknowledged, done, SoFar(boolean, total), CausedBy(error))
                 else Raised(error);
        case Answered(reply) =>
          if total + reply.size > UINT32_MAX {
            return Partial(acknowledged + 1, done + count, SoFar(boolean, total), CountOverflow);
          }
          if boolean && reply.size == 0 {
            return if acknowledged > 0 then Partial(acknowledged, done, FlagSoFar(false), ChunkRejected)
                   else Accepted(false);
          }
          total := total + reply.size;
          acknowledged := acknowledged + 1;
          done := done + count;
      }
    }
    assert chunks[..|chunks|] == chunks;
    LedgerSettles(live, boolean, NewCalls(before, node.calls), total, done, acknowledged);
    r := if boolean then Accepted(true) else Total(total);
  }

  lemma FitsAt(chunks: seq<Planned>, i: nat)
    requires AllFit(chunks) && i < |chunks|
    ensures ByteSize(chunks[i].request) <= MAX_RPC_SIZE
  {
    hide ByteSize;
  }

  lemma NothingSent(live: seq<Planned>, boolean: bool)
    ensures Ledger(live, boolean, [], 0, 0, 0) && Live([]) == []
  {
    assert live[..0] == [];
  }

  lemma FitsNoSizeError(end: Option<int>, c: Call)
    requires CallOk(end, c) && ByteSize(c.request) <= MAX_RPC_SIZE
    ensures c.result != Errored(RequestTooLarge)
  {
    hide ByteSize;
  }

  lemma LedgerSettles(live: seq<Planned>, boolean: bool, calls: seq<Call>, total: nat, done: nat, acknowledged: nat)
    requires Ledger(live, boolean, calls, total, done, acknowledged) && |calls| == |live|
    ensures Settled(live, boolean, calls, if boolean then Accepted(true) else Total(total))
  {
    if calls != [] {
      var n := |calls| - 1;
      assert calls == calls[..n] + [calls[n]];
      RepliedPush(calls[..n], calls[n]);
    }
    hide Replied;
  }

  // ---------- chunked creation ----------

  function HintOf(reply: Reply): KeyHint {
    if reply.hint.None? then KeyHint(None, None) else reply.hint.value
  }

  /** A continuation is rejected by an error or, for sequences, by a zero size. */
  predicate Continued(sequence: bool, c: Call) {
    c.result.Answered? && (sequence ==> c.result.reply.size > 0)
  }

  function ContinuationOf(chunk: Request, hint: Option<KeyHint>): Request {
    if chunk.CreateContainer? then Continuation(chunk, hint) else chunk
  }

  /** Continuations are appended to a sequence and added to everything else. */
  function ContinuationStub(sequence: bool): Stub {
    ItemStub(if sequence then AddElementToTail else AddElement)
  }

  /** The create request went first, then the continuations in order, all with the returned hint. */
  ghost predicate SentCreation(chunks: seq<Planned>, sequence: bool, calls: seq<Call>) {
    && 1 <= |calls| <= |chunks|
    && calls[0].stub == CreateStub && calls[0].request == chunks[0].request
    && (|calls| > 1 ==> calls[0].result.Answered?)
    && (forall i :: 1 <= i < |calls| ==>
          calls[i].stub == ContinuationStub(sequence)
          && calls[i].request == ContinuationOf(chunks[i].request, calls[0].result.reply.hint))
    && (forall i :: 1 <= i < |calls| - 1 ==> Continued(sequence, calls[i]))
  }

  /** The outcome of a chunked creation, read off the calls it made. */
  ghost predicate SettledCreation(chunks: seq<Planned>, sequence: bool, calls: seq<Call>, r: Outcome) {
    && SentCreation(chunks, sequence, calls)
    && match r
       case Created(hint) =>
         |calls| == |chunks| && calls[0].result.Answered? && hint == HintOf(calls[0].result.reply)
         && (forall i :: 1 <= i < |calls| ==> Continued(sequence, calls[i]))
       case Raised(error) => |calls| == 1 && calls[0].result == Errored(error)
       case Partial(done, items, partial, cause) =>
         |calls| == done + 1 >= 2 && items == ItemsIn(chunks[..done])
         && partial == HintSoFar(HintOf(calls[0].result.reply))
         && (match cause
             case CausedBy(error) => calls[done].result == Errored(error)
             case ChunkRejected => sequence && calls[done].result.Answered? && calls[done].result.reply.size == 0
             case CountOverflow => false)
       case _ => false
  }

  /** The preflight of continuations: each with the largest possible hint is within the limit. */
  ghost predicate ContinuationsPass(chunks: seq<Planned>) {
    forall i :: 1 <= i < |chunks| ==> ByteSize(ContinuationOf(chunks[i].request, Some(FULL_HINT))) <= MAX_RPC_SIZE
  }

  ghost predicate CreateOutcome(request: Request, calls: seq<Call>, r: Outcome)
    requires request.CreateContainer?
  {
    match PlanOf(WithSharedTtl(request), true)
    case Failure(error) => calls == [] && r == Raised(error)
    case Success(chunks) =>
      if ContinuationsPass(chunks) then SettledCreation(chunks, IsSequenceKind(request.kind), calls, r)
      else calls == [] && r == Raised(RequestTooLarge)
  }

  /** The creation's ledger while everything sent so far was accepted. */
  ghost predicate CreationLedger(chunks: seq<Planned>, sequence: bool, calls: seq<Call>, done: nat, acknowledged: nat) {
    && SentCreation(chunks, sequence, calls) && calls[0].result.Answered?
    && (forall i :: 1 <= i < |calls| ==> Continued(sequence, calls[i]))
    && acknowledged == |calls| && done == ItemsIn(chunks[..|calls|])
  }

  lemma CreationStarts(chunks: seq<Planned>, sequence: bool, c: Call)
    requires chunks != [] && c.stub == CreateStub && c.request == chunks[0].request
    ensures c.result.Errored? ==> SettledCreation(chunks, sequence, [c], Raised(c.result.error))
    ensures c.result.Answered? ==> CreationLedger(chunks, sequence, [c], chunks[0].count, 1)
  {
    ItemsPush([], chunks[0]);
    assert chunks[..1] == [] + [chunks[0]];
    hide ItemsIn;
    assert ItemsIn([]) == 0 by { NoItemsIn(); }
  }

  lemma NoItemsIn()
    ensures ItemsIn([]) == 0
  {
  }

  lemma CreationStep(chunks: seq<Planned>, sequence: bool, calls: seq<Call>, done: nat, acknowledged: nat, c: Call)
    requires CreationLedger(chunks, sequence, calls, done, acknowledged) && |calls| < |chunks|
    requires c.stub == ContinuationStub(sequence)
    requires c.request == ContinuationOf(chunks[|calls|].request, calls[0].result.reply.hint)
    ensures var hint := HintSoFar(HintOf(calls[0].result.reply));
            match c.result
            case Errored(error) =>
              SettledCreation(chunks, sequence, calls + [c], Partial(acknowledged, done, hint, CausedBy(error)))
            case Answered(reply) =>
              if sequence && reply.size == 0 then
                SettledCreation(chunks, sequence, calls + [c], Partial(acknowledged, done, hint, ChunkRejected))
              else
                CreationLedger(chunks, sequence, calls + [c], done + chunks[|calls|].count, acknowledged + 1)
  {
    ItemsPush(chunks[..|calls|], chunks[|calls|]);
    assert chunks[..|calls| + 1] == chunks[..|calls|] + [chunks[|calls|]];
    hide ItemsIn, ContinuationOf;
  }

  lemma CreationEnds(chunks: seq<Planned>, sequence: bool, calls: seq<Call>, done: nat, acknowledged: nat)
    requires CreationLedger(chunks, sequence, calls, done, acknowledged) && |calls| == |chunks|
    ensures SettledCreation(chunks, sequence, calls, Created(HintOf(calls[0].result.reply)))
  {
    hide ItemsIn, ContinuationOf;
  }

  lemma ContinuationFitsAt(chunks: seq<Planned>, i: nat, hint: Option<KeyHint>)
    requires ContinuationsPass(chunks) && 1 <= i < |chunks| && chunks[i].request.CreateContainer?
    ensures ByteSize(ContinuationOf(chunks[i].request, hint)) <= MAX_RPC_SIZE
  {
    AnyHintIsSmaller(chunks[i].request, hint);
    hide ByteSize, Continuation;
    assert ByteSize(ContinuationOf(chunks[i].request, Some(FULL_HINT))) <= MAX_RPC_SIZE;
  }

  method PreflightContinuations(ctx: Context, chunks: seq<Planned>) returns (r: Result<(), Error>)
    requires chunks != [] && forall chunk <- chunks :: chunk.request.CreateContainer?
    modifies ctx`now
    ensures ctx.now >= old(ctx.now)
    ensures r.Success? ==> ContinuationsPass(chunks)
    ensures r.Failure? ==> (r.error.RequestTooLarge? && !ContinuationsPass(chunks))
                           || (r.error.DeadlineExceeded? && ctx.Expired())
  {
    hide ByteSize, Continuation;
    for i := 1 to |chunks|
      invariant ctx.now >= old(ctx.now)
      invariant forall k :: 1 <= k < i ==>
                  ByteSize(ContinuationOf(chunks[k].request, Some(FULL_HINT))) <= MAX_RPC_SIZE
    {
      var checked := Check(ctx, Continuation(chunks[i].request, Some(FULL_HINT)));
      if checked.Failure? {
        return checked;
      }
    }
    r := Success(());
  }

  /** `_create_container_chunked` and its asynchronous twin */
  method CreateChunked(ctx: Context, node: Node, request: Request, timeout: Option<int>) returns (r: Outcome)
    requires request.CreateContainer?
    modifies node`calls, ctx`now
    ensures ctx.now >= old(ctx.now) && Extends(old(node.calls), node.calls, ctx.deadline)
    ensures MadeInTurn(old(node.calls), node.calls, old(ctx.now), ctx.now, timeout)
    ensures CreateOutcome(request, NewCalls(old(node.calls), node.calls), r)
            || (r == Raised(DeadlineExceeded) && ctx.Expired() && node.calls == old(node.calls))
  {
    hide MadeInTurn;
    ghost var before, from := node.calls, ctx.now;
    ExtendsNone(before, ctx.deadline);
    var shared := WithSharedTtl(request);
    var planned := Plan(ctx, shared, true);
    MadeNone(before, from, ctx.now, timeout);
    if planned.Failure? {
      return Raised(planned.error);
    }
    CreationLists(shared);
    PlannedFit(shared, true);
    var checked := PreflightContinuations(ctx, planned.value);
    MadeNone(before, from, ctx.now, timeout);
    if checked.Failure? {
      return Raised(checked.error);
    }
    ghost var mid := ctx.now;
    r := SendCreation(ctx, node, planned.value, IsSequenceKind(request.kind), timeout);
    MadeWider(before, node.calls, mid, ctx.now, from, ctx.now, timeout);
  }

  /** The creation's sending loop. */
  method SendCreation(ctx: Context, node: Node, chunks: seq<Planned>, sequence: bool, timeout: Option<int>)
    returns (r: Outcome)
    requires AllFit(chunks) && ContinuationsPass(chunks)
    requires chunks != [] && forall chunk <- chunks :: chunk.request.CreateContainer?
    modifies node`calls, ctx`now
    ensures ctx.now >= old(ctx.now) && Extends(old(node.calls), node.calls, ctx.deadline)
    ensures MadeInTurn(old(node.calls), node.calls, old(ctx.now), ctx.now, timeout)
    ensures SettledCreation(chunks, sequence, NewCalls(old(node.calls), node.calls), r)
  {
    hide *;
    ghost var before, from := node.calls, ctx.now;
    ExtendsNone(before, ctx.deadline);
    MadeNone(before, from, from, timeout);
    FitsAt(chunks, 0);
    var first := node.Invoke(ctx, CreateStub, chunks[0].request, timeout);
    ExtendsPush(before, before, node.calls, ctx.deadline);
    MadePush(before, before, node.calls[|before|], node.calls, from, from, ctx.now, timeout);
    assert NewCalls(before, node.calls) == [node.calls[|before|]];
    CreationStarts(chunks, sequence, node.calls[|before|]);
    if first.Errored? {
      return Raised(first.error);
    }
    var hint := HintOf(first.reply);
    var done: nat, acknowledged: nat := chunks[0].count, 1;
    for i := 1 to |chunks|
      invariant ctx.now >= from && Extends(before, node.calls, ctx.deadline)
      invariant MadeInTurn(before, node.calls, from, ctx.now, timeout)
      invariant |before| < |node.calls| && |NewCalls(before, node.calls)| == i
      invariant node.calls[|before|].result == first && NewCalls(before, node.calls)[0].result == first
      invariant CreationLedger(chunks, sequence, NewCalls(before, node.calls), done, acknowledged)
    {
      ghost var now, mid := node.calls, ctx.now;
      ContinuationFitsAt(chunks, i, first.reply.hint);
      ContinuationOfCreate(chunks[i].request, first.reply.hint);
      var continuation := Continuation(chunks[i].request, first.reply.hint);
      var result := node.Invoke(ctx, ContinuationStub(sequence), continuation, timeout);
      ExtendsPush(before, now, node.calls, ctx.deadline);
      MadePush(before, now, node.calls[|now|], node.calls, from, mid, ctx.now, timeout);
      CreationStep(chunks, sequence, NewCalls(before, now), done, acknowledged, node.calls[|now|]);
      if result.Errored? {
        return Partial(acknowledged, done, HintSoFar(hint), CausedBy(result.error));
      }
      if sequence && result.reply.size == 0 {
        return Partial(acknowledged, done, HintSoFar(hint), ChunkRejected);
      }
      acknowledged := acknowledged + 1;
      done := done + chunks[i].count;
    }
    CreationEnds(chunks, sequence, NewCalls(before, node.calls), done, acknowledged);
    r := Created(hint);
  }

  lemma ContinuationOfCreate(chunk: Request, hint: Option<KeyHint>)
    requires chunk.CreateContainer?
    ensures ContinuationOf(chunk, hint) == Continuation(chunk, hint)
  {
  }
}
