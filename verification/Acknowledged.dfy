/**
 One unit of chunked work on a connection, and which items the servers have acknowledged
 after up to two attempts at it.
 */
module Acknowledged {
  import opened Basics
  import opened Errors
  import opened Messages
  import opened Batching
  import opened Meaning
  import opened Creations
  import opened Containers
  import opened Sender
  import opened SenderTheorems

  datatype Work = AddWork(request: Request, boolean: bool, rpc: Rpc) | CreateWork(request: Request)

  predicate ValidWork(work: Work) {
    work.CreateWork? ==> work.request.CreateContainer?
  }

  predicate EarlyError(e: Error) {
    e.ClientClosed? || e.InvalidTimeout? || e.DeadlineExceeded?
  }

  /** The outcome of running the work on one node, read off the calls made there. */
  ghost predicate WorkOutcome(work: Work, calls: seq<Call>, r: Outcome)
    requires ValidWork(work)
  {
    (calls == [] && r.Raised? && EarlyError(r.error)) || Finished(work, calls, r)
  }

  ghost predicate Finished(work: Work, calls: seq<Call>, r: Outcome)
    requires ValidWork(work)
  {
    match work
    case AddWork(request, boolean, rpc) => AddOutcome(request, boolean, calls, r) && AllUse(calls, rpc)
    case CreateWork(request) => CreateOutcome(request, calls, r)
  }

  ghost predicate NothingAnswered(calls: seq<Call>) {
    forall c <- calls :: c.result.Errored?
  }

  /** An error that is raised as such means no chunk was acknowledged: progress is always partial. */
  lemma RaisedMeansNothingAnswered(work: Work, calls: seq<Call>, r: Outcome)
    requires ValidWork(work) && WorkOutcome(work, calls, r) && r.Raised?
    ensures NothingAnswered(calls) && |calls| <= 1
  {
    hide PlanOf, Replied, ItemsIn, ContinuationsPass, ContinuationOf;
  }

  // ---------- the acknowledged requests ----------

  /** The requests that a server answered, in order. */
  function AnsweredRequests(calls: seq<Call>): (answered: seq<Request>)
    ensures |answered| <= |calls|
  {
    if calls == [] then []
    else (if calls[0].result.Answered? then [calls[0].request] else []) + AnsweredRequests(calls[1..])
  }

  lemma AnsweredCons(c: Call, rest: seq<Call>)
    ensures AnsweredRequests([c] + rest)
            == (if c.result.Answered? then [c.request] else []) + AnsweredRequests(rest)
  {
    assert ([c] + rest)[0] == c && ([c] + rest)[1..] == rest;
  }

  lemma AnsweredNothing()
    ensures AnsweredRequests([]) == []
  {
  }

  lemma {:induction false} AnsweredAppend(a: seq<Call>, b: seq<Call>)
    ensures AnsweredRequests(a + b) == AnsweredRequests(a) + AnsweredRequests(b)
  {
    hide *;
    if a == [] {
      assert a + b == b;
      AnsweredNothing();
    } else {
      AnsweredAppend(a[1..], b);
      assert [a[0]] + a[1..] == a && [a[0]] + (a[1..] + b) == a + b;
      AnsweredCons(a[0], a[1..]);
      AnsweredCons(a[0], a[1..] + b);
    }
  }

  lemma {:induction false} AnsweredNone(calls: seq<Call>)
    requires NothingAnswered(calls)
    ensures AnsweredRequests(calls) == []
  {
    if calls != [] {
      AnsweredNone(calls[1..]);
    }
  }

  lemma {:induction false} AnsweredAll(calls: seq<Call>)
    requires forall c <- calls :: c.result.Answered?
    ensures |AnsweredRequests(calls)| == |calls|
    ensures forall i :: 0 <= i < |calls| ==> AnsweredRequests(calls)[i] == calls[i].request
  {
    if calls != [] {
      AnsweredAll(calls[1..]);
    }
  }

  /** If all calls but the last were answered, the answered requests are those of a prefix of the calls. */
  lemma AnsweredPrefix(calls: seq<Call>) returns (k: nat)
    requires forall i :: 0 <= i < |calls| - 1 ==> calls[i].result.Answered?
    ensures k <= |calls| && |AnsweredRequests(calls)| == k
    ensures forall i :: 0 <= i < k ==> AnsweredRequests(calls)[i] == calls[i].request
  {
    k := |calls|;
    if calls != [] && calls[k - 1].result.Errored? {
      k := k - 1;
      assert calls == calls[..k] + [calls[k]];
      AnsweredAppend(calls[..k], [calls[k]]);
      AnsweredNone([calls[k]]);
    }
    AnsweredAll(calls[..k]);
    assert k == |calls| ==> calls[..k] == calls;
  }

  // ---------- every item at most once ----------

  /** The request whose plan is executed. */
  function PlannedRequest(work: Work): Request
    requires ValidWork(work)
  {
    if work.CreateWork? then WithSharedTtl(work.request) else work.request
  }

  function WorkPlan(work: Work): Result<seq<Planned>, Error>
    requires ValidWork(work)
  {
    PlanOf(PlannedRequest(work), work.CreateWork?)
  }

  /** The answered requests carry, one by one, the items of the first k planned chunks. */
  ghost predicate Delivers(answered: seq<Request>, plan: seq<Planned>, k: nat) {
    k <= |plan| && |answered| == k && forall i :: 0 <= i < k ==> ItemsOf(answered[i]) == ItemsOf(plan[i].request)
  }

  /**
   What the servers acknowledged are the items of the first chunks of the plan, each chunk once;
   those items are a prefix of the input or, for an insert-after, a suffix.
   */
  ghost predicate AtMostOnce(work: Work, answered: seq<Request>)
    requires ValidWork(work)
  {
    match WorkPlan(work)
    case Failure(_) => answered == []
    case Success(plan) =>
      exists k: nat :: Delivers(answered, plan, k) && ItemsOf(PlannedRequest(work)).Success?
                       && ReportsItems(PlannedRequest(work), plan, k)
  }

  lemma DeliversMeans(work: Work, answered: seq<Request>, k: nat)
    requires ValidWork(work) && WorkPlan(work).Success? && Delivers(answered, WorkPlan(work).value, k)
    ensures AtMostOnce(work, answered)
  {
    hide PlanOf, ItemsOf, ReportsItems, WithSharedTtl;
    ReportedItems(PlannedRequest(work), work.CreateWork?, k);
  }

  lemma AddDelivers(plan: seq<Planned>, boolean: bool, calls: seq<Call>, r: Outcome) returns (k: nat)
    requires Settled(plan, boolean, calls, r)
    ensures Delivers(AnsweredRequests(calls), plan, k)
  {
    hide Replied, ItemsIn, ItemsOf;
    k := AnsweredPrefix(calls);
  }

  lemma CreationDelivers(plan: seq<Planned>, sequence: bool, calls: seq<Call>, r: Outcome) returns (k: nat)
    requires SettledCreation(plan, sequence, calls, r)
    ensures Delivers(AnsweredRequests(calls), plan, k)
  {
    hide ItemsIn, ItemsOf, ContinuationOf;
    k := AnsweredPrefix(calls);
    forall i | 1 <= i < k
      ensures ItemsOf(AnsweredRequests(calls)[i]) == ItemsOf(plan[i].request)
    {
      SameItems(plan[i].request, calls[0].result.reply.hint);
    }
  }

  lemma SameItems(chunk: Request, hint: Option<KeyHint>)
    ensures ItemsOf(ContinuationOf(chunk, hint)) == ItemsOf(chunk)
  {
  }

  lemma DeliversNothing(plan: seq<Planned>)
    ensures Delivers([], plan, 0)
  {
  }

  lemma LiveDelivers(request: Request, answered: seq<Request>, k: nat)
    requires PlanOf(request, false).Success?
    requires Delivers(answered, Live(PlanOf(request, false).value), k)
    ensures Delivers(answered, PlanOf(request, false).value, k)
  {
    hide PlanOf, ItemsOf;
    PlanIsLive(request, false);
  }

  /** One attempt acknowledges each item at most once. */
  lemma OnceEach(work: Work, calls: seq<Call>, r: Outcome)
    requires ValidWork(work) && WorkOutcome(work, calls, r)
    ensures AtMostOnce(work, AnsweredRequests(calls))
  {
    hide PlanOf, Settled, SettledCreation, ContinuationsPass, AtMostOnce, Delivers, Live, ItemsOf;
    if WorkPlan(work).Failure? {
      NothingDelivered(work);
    } else {
      var plan := WorkPlan(work).value;
      DeliversNothing(plan);
      var k: nat := 0;
      if calls != [] {
        match work {
          case AddWork(request, boolean, _) =>
            k := AddDelivers(Live(plan), boolean, calls, r);
            LiveDelivers(request, AnsweredRequests(calls), k);
          case CreateWork(request) =>
            k := CreationDelivers(plan, IsSequenceKind(request.kind), calls, r);
        }
      }
      DeliversMeans(work, AnsweredRequests(calls), k);
    }
  }

  lemma NothingDelivered(work: Work)
    requires ValidWork(work) && WorkPlan(work).Failure?
    ensures AtMostOnce(work, [])
  {
    hide PlanOf;
  }

  /**
   A second attempt is made only after a raised error, and then nothing was acknowledged: over
   both nodes each item is acknowledged at most once.
   */
  lemma NoReplay(work: Work, first: seq<Call>, second: seq<Call>, r1: Outcome, r2: Outcome)
    requires ValidWork(work) && WorkOutcome(work, first, r1)
    requires second != [] ==> r1.Raised? && WorkOutcome(work, second, r2)
    ensures AtMostOnce(work, AnsweredRequests(first + second))
  {
    hide WorkOutcome, AtMostOnce;
    if second == [] {
      assert first + second == first;
      OnceEach(work, first, r1);
    } else {
      RaisedMeansNothingAnswered(work, first, r1);
      AnsweredNone(first);
      AnsweredAppend(first, second);
      assert AnsweredRequests(first + second) == AnsweredRequests(second);
      OnceEach(work, second, r2);
    }
  }
}
