/**
 Executing one operation of the smart client on a snapshot of its topology and clients:
 choosing endpoints and making at most two attempts (`_execute`).
 */
module Router {
  import opened Basics
  import opened Errors
  import opened Operation
  import opened Batching
  import opened PlanTheorems
  import opened Topology
  import opened Sender
  import opened Acknowledged

  datatype Mode = MasterOnly | MasterThenBackup | BackupOnly | LoadBalanced

  function Lookup<C>(clients: map<Target, C>, table: Table, role: nat, shard: nat): Option<C> {
    var target := if (role, shard) in table.routes then table.routes[(role, shard)] else "";
    if target in clients then Some(clients[target]) else None
  }

  /** The clients to try, in order; empty when neither role has one. */
  function Endpoints<C(==)>(master: Option<C>, backup: Option<C>, mode: Mode, coin: bool): (endpoints: seq<C>)
    ensures |endpoints| <= 2
  {
    if master.None? || backup.None? || master == backup then
      if master.Some? then [master.value] else if backup.Some? then [backup.value] else []
    else match mode
      case MasterOnly => [master.value]
      case BackupOnly => [backup.value]
      case LoadBalanced => if coin then [backup.value, master.value] else [master.value, backup.value]
      case MasterThenBackup => [master.value, backup.value]
  }

  function EndpointsFor<C(==)>(clients: map<Target, C>, table: Table, shard: nat, mode: Mode, coin: bool): seq<C> {
    Endpoints(Lookup(clients, table, MASTER, shard), Lookup(clients, table, BACKUP, shard), mode, coin)
  }

  /** Endpoints are distinct clients of the snapshot, and none is chosen only if neither role is routed to one. */
  lemma EndpointsFromSnapshot<C>(clients: map<Target, C>, table: Table, shard: nat, mode: Mode, coin: bool)
    ensures var endpoints := EndpointsFor(clients, table, shard, mode, coin);
            && (forall e <- endpoints :: e in clients.Values) && |endpoints| <= 2
            && (|endpoints| == 2 ==> endpoints[0] != endpoints[1])
            && (endpoints == [] <==>
                  Lookup(clients, table, MASTER, shard).None? && Lookup(clients, table, BACKUP, shard).None?)
  {
  }

  /** Where a failed first attempt goes next, if anywhere. */
  function Fallback<C(==)>(clients: map<Target, C>, endpoints: seq<C>, error: Error): Option<C>
    requires endpoints != []
  {
    match error
    case FailedPrecondition(Some(route)) =>
      if route in clients && clients[route] != endpoints[0] then Some(clients[route]) else None
    case Unavailable => if |endpoints| < 2 then None else Some(endpoints[1])
    case _ => None
  }

  lemma FallbackIsOther<C>(clients: map<Target, C>, endpoints: seq<C>, error: Error)
    requires endpoints != [] && (forall e <- endpoints :: e in clients.Values)
    requires |endpoints| == 2 ==> endpoints[0] != endpoints[1]
    requires |endpoints| <= 2
    ensures var other := Fallback(clients, endpoints, error);
            && (other.Some? ==> other.value in clients.Values && other.value != endpoints[0])
            && (other.Some? && error.Unavailable? ==> other.value in endpoints)
            && (other.Some? ==> error.Unavailable? || (error.FailedPrecondition? && error.route.Some?))
  {
  }

  /**
   An unavailable node is followed by another one exactly when both roles lead to different
   clients and the mode allows two; then both are tried, in either order. In the modes bound
   to one role the client of the other role is reached by a redirect only.
   */
  lemma UnavailableTriesBoth<C>(clients: map<Target, C>, table: Table, shard: nat, mode: Mode, coin: bool, error: Error)
    requires EndpointsFor(clients, table, shard, mode, coin) != []
    ensures var master, backup := Lookup(clients, table, MASTER, shard), Lookup(clients, table, BACKUP, shard);
            var endpoints := EndpointsFor(clients, table, shard, mode, coin);
            var other, next := Fallback(clients, endpoints, Unavailable), Fallback(clients, endpoints, error);
            var both := master.Some? && backup.Some? && master != backup;
            && (other.Some? <==> both && (mode.MasterThenBackup? || mode.LoadBalanced?))
            && (other.Some? ==> {endpoints[0], other.value} == {master.value, backup.value})
            && (both && mode.MasterOnly? && next == backup ==> error.FailedPrecondition?)
            && (both && mode.BackupOnly? && next == master ==> error.FailedPrecondition?)
            && (both && (mode.MasterOnly? || mode.BackupOnly?) ==>
                  endpoints[0] == if mode.MasterOnly? then master.value else backup.value)
  {
  }

  /**
   Which clients an operation uses, read off the routes: with two different clients the mode
   chooses the first, and for the modes that allow both the other one follows an unavailable
   node; a single client serves in every mode. A redirect leads to the client of its route.
   */
  predicate RoutedBy<C(==)>(clients: map<Target, C>, table: Table, shard: nat, mode: Mode, coin: bool,
                            first: Option<C>, failure: Option<Error>, second: Option<C>)
  {
    var master, backup := (MASTER, shard), (BACKUP, shard);
    var hasMaster := master in table.routes && table.routes[master] in clients;
    var hasBackup := backup in table.routes && table.routes[backup] in clients;
    "" !in clients ==>
    && (if hasMaster && hasBackup && clients[table.routes[master]] != clients[table.routes[backup]] then
          var m, b := clients[table.routes[master]], clients[table.routes[backup]];
          && first == Some(match mode
                           case MasterOnly => m
                           case MasterThenBackup => m
                           case BackupOnly => b
                           case LoadBalanced => if coin then b else m)
          && (failure == Some(Unavailable) ==>
                second == match mode
                          case MasterOnly => None
                          case MasterThenBackup => Some(b)
                          case BackupOnly => None
                          case LoadBalanced => Some(if coin then m else b))
        else
          && first == (if hasMaster then Some(clients[table.routes[master]])
                       else if hasBackup then Some(clients[table.routes[backup]])
                       else None)
          && (failure == Some(Unavailable) ==> second == None))
    && (failure.Some? && failure.value.FailedPrecondition? ==>
          var route := failure.value.route;
          second == if route.Some? && route.value in clients && Some(clients[route.value]) != first
                    then Some(clients[route.value]) else None)
    && (failure.None? || !(failure.value.Unavailable? || failure.value.FailedPrecondition?) ==> second == None)
  }

  function FirstOf<C>(endpoints: seq<C>): Option<C> {
    if endpoints == [] then None else Some(endpoints[0])
  }

  lemma EndpointsFollowRoutes<C>(clients: map<Target, C>, table: Table, shard: nat, mode: Mode, coin: bool,
                                 failure: Option<Error>)
    requires failure.Some? ==> EndpointsFor(clients, table, shard, mode, coin) != []
    ensures var endpoints := EndpointsFor(clients, table, shard, mode, coin);
            RoutedBy(clients, table, shard, mode, coin, FirstOf(endpoints), failure,
                     if failure.Some? then Fallback(clients, endpoints, failure.value) else None)
  {
  }

  // ---------- one attempt ----------

  function TimeoutTicks(limit: Option<Timeout>): Option<int> {
    if limit.Some? && limit.value.Finite? then Some(limit.value.ticks) else None
  }

  /** Why an operation ended before it used a connection. */
  predicate NotStarted(closed: bool, end: Option<int>, from: int, limit: Option<Timeout>, now: int, e: Error) {
    match e
    case ClientClosed => closed
    case InvalidTimeout => !closed && Invalid(limit)
    case DeadlineExceeded => Late(end, from, limit, now)
    case _ => false
  }

  /** Without a call, an operation that did start fails for its input alone. */
  lemma PlanningFails(work: Work, r: Outcome)
    requires ValidWork(work) && r.Raised? && Finished(work, [], r)
    ensures !EarlyError(r.error)
  {
    hide PlanOf, ContinuationsPass;
    if WorkPlan(work).Failure? {
      PlanErrors(PlannedRequest(work), work.CreateWork?);
    }
  }

  /** A public method of a direct client: its own nested operation around the chunked loop. */
  method Perform(ctx: Context, node: Node, work: Work, limit: Option<Timeout>, threshold: nat)
    returns (r: Outcome, ghost end: Option<int>)
    requires ValidWork(work)
    modifies node`calls, ctx`now, ctx`deadline, ctx`started, ctx`threshold, ctx`wall
    ensures ctx.deadline == old(ctx.deadline) && ctx.started == old(ctx.started)
    ensures ctx.threshold == old(ctx.threshold) && ctx.now >= old(ctx.now)
    ensures old(ctx.deadline).Some? ==> end == old(ctx.deadline)
    ensures Extends(old(node.calls), node.calls, end)
    ensures MadeInTurn(old(node.calls), node.calls, old(ctx.now), ctx.now, TimeoutTicks(limit))
    ensures WorkOutcome(work, NewCalls(old(node.calls), node.calls), r)
    ensures old(node.closed) ==> r == Raised(ClientClosed)
    ensures node.calls == old(node.calls) && r.Raised? && EarlyError(r.error) ==>
              NotStarted(node.closed, old(ctx.deadline), old(ctx.now), limit, ctx.now, r.error)
  {
    hide AddOutcome, CreateOutcome, MadeInTurn;
    ghost var before, from := node.calls, ctx.now;
    ExtendsNone(before, ctx.deadline);
    end := ctx.deadline;
    var entered := ctx.Enter(node.closed, limit, threshold);
    MadeNone(before, from, ctx.now, TimeoutTicks(limit));
    if entered.Failure? {
      r := Raised(entered.error);
      return;
    }
    end := ctx.deadline;
    ghost var mid := ctx.now;
    match work {
      case AddWork(request, boolean, rpc) =>
        r := AddChunked(ctx, node, rpc, request, boolean, TimeoutTicks(limit));
      case CreateWork(request) =>
        r := CreateChunked(ctx, node, request, TimeoutTicks(limit));
    }
    MadeWider(before, node.calls, mid, ctx.now, from, ctx.now, TimeoutTicks(limit));
    if node.calls == old(node.calls) && r.Raised? && Finished(work, [], r) {
      PlanningFails(work, r);
    }
    ctx.Leave(entered.value);
  }

  // ---------- both attempts ----------

  /**
   What holds of all calls of an operation together, in the order in which they were made: each
   item is acknowledged at most once, the RPCs are made in turn with the caller's timeout, and
   only the last may leave late.
   */
  ghost predicate Orderly(work: Work, calls: seq<Call>, end: Option<int>, from: int, to: int, limit: Option<Timeout>)
    requires ValidWork(work)
  {
    && AtMostOnce(work, AnsweredRequests(calls))
    && InTurn(IssuesOf(calls), from, to)
    && (limit.Some? && limit.value.Finite? ==> AllRequested(IssuesOf(calls), Some(limit.value.ticks)))
    && (limit.None? ==> AllRequested(IssuesOf(calls), None))
    && (end.Some? ==> OnlyLastLate(end.value, IssuesOf(calls)))
  }

  lemma OrderlyMeans(work: Work, a: seq<Call>, b: seq<Call>, end: Option<int>, from: int, mid: int, to: int,
                     limit: Option<Timeout>)
    requires ValidWork(work) && AtMostOnce(work, AnsweredRequests(a + b))
    requires InTurn(IssuesOf(a), from, mid) && InTurn(IssuesOf(b), mid, to)
    requires AllRequested(IssuesOf(a), TimeoutTicks(limit)) && AllRequested(IssuesOf(b), TimeoutTicks(limit))
    requires end.Some? ==> CallsOk(end, a) && CallsOk(end, b)
    ensures Orderly(work, a + b, end, from, to, limit)
  {
    hide AtMostOnce, AnsweredRequests, InTurn, IssuesOf, CallOk;
    IssuesOfAppend(a, b);
    InTurnAppend(IssuesOf(a), IssuesOf(b), from, mid, to);
    if end.Some? {
      CallsOnTime(end.value, a + b);
      LateIsLast(end.value, IssuesOf(a + b), from, to);
    }
  }

  /** The same, for the logs of the nodes that were used. */
  lemma OrderlyLogs(work: Work, before1: seq<Call>, after1: seq<Call>, before2: seq<Call>, after2: seq<Call>,
                    end: Option<int>, from: int, mid: int, to: int, limit: Option<Timeout>)
    requires ValidWork(work)
    requires MadeInTurn(before1, after1, from, mid, TimeoutTicks(limit))
    requires MadeInTurn(before2, after2, mid, to, TimeoutTicks(limit))
    requires AtMostOnce(work, AnsweredRequests(NewCalls(before1, after1) + NewCalls(before2, after2)))
    requires end.Some? ==> Extends(before1, after1, end) && Extends(before2, after2, end)
    ensures Orderly(work, NewCalls(before1, after1) + NewCalls(before2, after2), end, from, to, limit)
  {
    hide AtMostOnce, AnsweredRequests, InTurn, IssuesOf, CallOk, Orderly;
    OrderlyMeans(work, NewCalls(before1, after1), NewCalls(before2, after2), end, from, mid, to, limit);
  }

  lemma OrderlyWider(work: Work, calls: seq<Call>, end: Option<int>, from: int, to: int, from': int,
                     limit: Option<Timeout>)
    requires ValidWork(work) && Orderly(work, calls, end, from, to, limit) && from' <= from
    ensures Orderly(work, calls, end, from', to, limit)
  {
    hide AtMostOnce, AnsweredRequests, IssuesOf, OnlyLastLate;
    InTurnWider(IssuesOf(calls), from, to, from', to);
  }

  lemma ExtendsPrefix(before: seq<Call>, after: seq<Call>, end: Option<int>)
    requires Extends(before, after, end)
    ensures before <= after
  {
  }

  /**
   The two attempts: at most two distinct nodes of the snapshot are used, the second one is
   final and is reached only when the first acknowledged nothing, and every RPC on either
   node is budgeted and checked under the deadline in force.
   */
  method Attempt(ctx: Context, clients: map<Target, Node>, endpoints: seq<Node>,
                 work: Work, limit: Option<Timeout>, threshold: nat)
    returns (r: Outcome, ghost r1: Outcome, ghost second: Option<Node>)
    requires ValidWork(work) && 1 <= |endpoints| <= 2
    requires (forall e <- endpoints :: e in clients.Values) && (|endpoints| == 2 ==> endpoints[0] != endpoints[1])
    modifies clients.Values`calls, ctx`now, ctx`deadline, ctx`started, ctx`threshold, ctx`wall
    ensures ctx.deadline == old(ctx.deadline) && ctx.started == old(ctx.started)
    ensures ctx.threshold == old(ctx.threshold) && ctx.now >= old(ctx.now)
    ensures forall n <- clients.Values :: n != endpoints[0] && Some(n) != second ==> n.calls == old(n.calls)
    ensures forall n <- clients.Values :: old(n.calls) <= n.calls
    ensures ctx.deadline.Some? ==> forall n <- clients.Values :: Extends(old(n.calls), n.calls, ctx.deadline)
    ensures WorkOutcome(work, NewCalls(old(endpoints[0].calls), endpoints[0].calls), r1)
    ensures second == if r1.Raised? then Fallback(clients, endpoints, r1.error) else None
    ensures second.None? ==> r == r1
    ensures second.Some? ==>
              && second.value in clients.Values && second.value != endpoints[0]
              && NothingAnswered(NewCalls(old(endpoints[0].calls), endpoints[0].calls))
              && WorkOutcome(work, NewCalls(old(second.value.calls), second.value.calls), r)
    ensures Orderly(work, NewCalls(old(endpoints[0].calls), endpoints[0].calls)
                          + if second.Some? then NewCalls(old(second.value.calls), second.value.calls) else [],
                    ctx.deadline, old(ctx.now), ctx.now, limit)
  {
    hide WorkOutcome, Extends, NothingAnswered, AtMostOnce, NewCalls, MadeInTurn, Orderly, AnsweredRequests;
    ghost var from := ctx.now;
    second := None;
    var endpoint := endpoints[0];
    ghost var end := ctx.deadline;
    forall n | n in clients.Values
      ensures Extends(n.calls, n.calls, end)
    {
      ExtendsNone(n.calls, end);
    }
    r, end := Perform(ctx, endpoint, work, limit, threshold);
    ExtendsPrefix(old(endpoint.calls), endpoint.calls, end);
    r1 := r;
    ghost var made := NewCalls(old(endpoint.calls), endpoint.calls);
    NoReplay(work, made, [], r, r);
    NoneNew(old(endpoint.calls));
    MadeNone(old(endpoint.calls), ctx.now, ctx.now, TimeoutTicks(limit));
    ExtendsNone(old(endpoint.calls), ctx.deadline);
    OrderlyLogs(work, old(endpoint.calls), endpoint.calls, old(endpoint.calls), old(endpoint.calls), ctx.deadline,
                from, ctx.now, ctx.now, limit);
    ghost var mid := ctx.now;
    if !r.Raised? {
      return;
    }
    var other := Fallback(clients, endpoints, r.error);
    FallbackIsOther(clients, endpoints, r.error);
    if other.None? {
      return;
    }
    RaisedMeansNothingAnswered(work, made, r);
    second := other;
    r, end := Perform(ctx, other.value, work, limit, threshold);
    ExtendsPrefix(old(other.value.calls), other.value.calls, end);
    NoReplay(work, made, NewCalls(old(other.value.calls), other.value.calls), r1, r);
    OrderlyLogs(work, old(endpoint.calls), endpoint.calls, old(other.value.calls), other.value.calls, ctx.deadline,
                from, mid, ctx.now, limit);
  }

  /**
   `_execute`: a nested operation around the wait for readiness, endpoint selection on the
   snapshot of table and clients, and the two attempts. `ready` says whether the topology was
   ready within the time allowed for the wait.
   */
  method Execute(ctx: Context, closed: bool, ready: bool, readiness: Option<int>, clients: map<Target, Node>,
                 table: Table, shard: nat, mode: Mode, coin: bool, work: Work, limit: Option<Timeout>, threshold: nat)
    returns (r: Outcome, ghost r1: Outcome, ghost first: Option<Node>, ghost second: Option<Node>,
             ghost end: Option<int>)
    requires ValidWork(work)
    modifies clients.Values`calls, ctx`now, ctx`deadline, ctx`started, ctx`threshold, ctx`wall
    // the context is restored however the operation ends
    ensures ctx.deadline == old(ctx.deadline) && ctx.started == old(ctx.started)
    ensures ctx.threshold == old(ctx.threshold) && ctx.now >= old(ctx.now)
    // one deadline: the outer one, or the one this operation starts
    ensures old(ctx.deadline).Some? ==> end == old(ctx.deadline)
    ensures old(ctx.deadline).None? && limit.Some? && first.Some? ==>
              && limit.value.Finite? && end.Some?
              && old(ctx.now) + limit.value.ticks <= end.value <= ctx.now + limit.value.ticks
    ensures end.Some? ==> forall n <- clients.Values :: Extends(old(n.calls), n.calls, end)
    // at most two nodes are used, both of the snapshot
    ensures first.Some? ==>
              && EndpointsFor(clients, table, shard, mode, coin) != []
              && first.value == EndpointsFor(clients, table, shard, mode, coin)[0]
              && second == (if r1.Raised? then
                              Fallback(clients, EndpointsFor(clients, table, shard, mode, coin), r1.error)
                            else None)
    ensures first.Some? ==>
              RoutedBy(clients, table, shard, mode, coin, first, if r1.Raised? then Some(r1.error) else None, second)
    ensures first.None? && r == Raised(Unavailable) ==>
              RoutedBy(clients, table, shard, mode, coin, None, None, None)
    ensures first.None? ==>
              && second.None? && r.Raised?
              && ((r.error.Unavailable? && EndpointsFor(clients, table, shard, mode, coin) == [])
                  || (r.error.NotReady? && !ready)
                  || NotStarted(closed, old(ctx.deadline), old(ctx.now), limit, ctx.now, r.error))
    ensures first.Some? ==> first.value in clients.Values && ready && !closed && !Invalid(limit)
    ensures second.Some? ==> second.value in clients.Values && second != first
    ensures forall n <- clients.Values :: Some(n) != first && Some(n) != second ==> n.calls == old(n.calls)
    // no replay, and at most the last RPC leaves late
    ensures first.Some? && second.Some? ==> NothingAnswered(NewCalls(old(first.value.calls), first.value.calls))
    ensures Orderly(work, (if first.Some? then NewCalls(old(first.value.calls), first.value.calls) else [])
                          + if second.Some? then NewCalls(old(second.value.calls), second.value.calls) else [],
                    end, old(ctx.now), ctx.now, limit)
    // the outcome is that of the last attempt
    ensures first.Some? ==> WorkOutcome(work, NewCalls(old(first.value.calls), first.value.calls), r1)
    ensures second.Some? ==> WorkOutcome(work, NewCalls(old(second.value.calls), second.value.calls), r)
    ensures second.None? ==> r == r1
  {
    hide WorkOutcome, Extends, NothingAnswered, AtMostOnce, NewCalls, EndpointsFor, Fallback, Orderly, RoutedBy;
    ghost var from := ctx.now;
    first, second, end := None, None, ctx.deadline;
    r1 := Raised(Unavailable);
    forall n | n in clients.Values
      ensures Extends(n.calls, n.calls, ctx.deadline)
    {
      ExtendsNone(n.calls, ctx.deadline);
    }
    var entered := ctx.Enter(closed, limit, threshold);
    if entered.Failure? {
      NothingAtAll(work, end, from, ctx.now, limit);
      r := Raised(entered.error);
      r1 := r;
      return;
    }
    end := ctx.deadline;
    forall n | n in clients.Values
      ensures Extends(n.calls, n.calls, end)
    {
      ExtendsNone(n.calls, end);
    }
    var budget := ctx.Remaining(readiness);
    if budget.Success? {
      var waited := ctx.Monotonic();
    }
    var endpoints := EndpointsFor(clients, table, shard, mode, coin);
    EndpointsFromSnapshot(clients, table, shard, mode, coin);
    NothingAtAll(work, end, from, ctx.now, limit);
    EndpointsFollowRoutes(clients, table, shard, mode, coin, None);
    if budget.Failure? {
      r := Raised(budget.error);
      r1 := r;
    } else if !ready {
      r := Raised(NotReady);
      r1 := r;
    } else if endpoints == [] {
      r := Raised(Unavailable);
    } else {
      first := Some(endpoints[0]);
      ghost var mid := ctx.now;
      r, r1, second := Attempt(ctx, clients, endpoints, work, limit, threshold);
      OrderlyWider(work, NewCalls(old(endpoints[0].calls), endpoints[0].calls)
                         + if second.Some? then NewCalls(old(second.value.calls), second.value.calls) else [],
                   end, mid, ctx.now, from, limit);
      EndpointsFollowRoutes(clients, table, shard, mode, coin, if r1.Raised? then Some(r1.error) else None);
    }
    ctx.Leave(entered.value);
  }

  lemma NothingAtAll(work: Work, end: Option<int>, from: int, to: int, limit: Option<Timeout>)
    requires ValidWork(work) && from <= to
    ensures Orderly(work, [] + [], end, from, to, limit)
  {
    hide *;
    var none: seq<Call> := [];
    assert none + none == none;
    EarlyOutcome(work);
    OnceEach(work, none, Raised(ClientClosed));
    NoCalls(end, from, to, limit);
    OrderlyMeans(work, none, none, end, from, to, to, limit);
  }

  lemma EarlyOutcome(work: Work)
    requires ValidWork(work)
    ensures WorkOutcome(work, [], Raised(ClientClosed))
  {
    hide Finished;
  }

  lemma NoCalls(end: Option<int>, from: int, to: int, limit: Option<Timeout>)
    requires from <= to
    ensures InTurn(IssuesOf([]), from, to) && InTurn(IssuesOf([]), to, to)
    ensures AllRequested(IssuesOf([]), TimeoutTicks(limit)) && CallsOk(end, [])
  {
  }

  lemma NoneNew(before: seq<Call>)
    ensures NewCalls(before, before) == []
  {
  }
}
