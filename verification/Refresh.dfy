/**
 The smart client as a state machine: operations begin and end, topologies are applied and
 retired clients are closed, in any interleaving of the steps that the lock (or the event
 loop) makes atomic. Direct clients are numbered in the order of their creation.
 */
module Refresh {
  import opened Errors
  import opened Topology
  import opened Shards

  type Id = nat
  type Op = nat

  /** What an operation holds while it is in flight. */
  datatype Snapshot = Snapshot(table: Table, clients: map<Target, Id>)

  datatype State = State(
    table: Table, clients: map<Target, Id>, retired: seq<Id>, active: int, ready: bool, counter: nat,
    next: Id,                 // direct clients created so far
    pending: seq<Id>,         // taken off the retired list, not closed yet
    closed: seq<Id>,          // calls of close(), in order
    ops: map<Op, Snapshot>)   // operations in flight

  const START := State(EMPTY_TABLE, map[], [], 0, false, 0, 0, [], [], map[])

  datatype Step =
    | Begin(op: Op)
    | Pick(op: Op)            // a hintless shard selection
    | End(op: Op)
    | CloseOne(index: nat)
    | Apply(table: Table, removed: seq<Target>, order: seq<Target>, parsable: set<Target>)

  /** Some iteration order of a set. */
  ghost predicate Enumerates<T(!new)>(xs: seq<T>, s: set<T>) {
    && (forall x :: x in xs <==> x in s)
    && (forall i, j :: 0 <= i < j < |xs| ==> xs[i] != xs[j])
  }

  /** Operations begin once the client is ready; a topology is applied in any iteration order of its sets. */
  ghost predicate Enabled(s: State, step: Step) {
    match step
    case Begin(op) => s.ready && op !in s.ops
    case Pick(op) => op in s.ops
    case End(op) => op in s.ops
    case CloseOne(i) => i < |s.pending|
    case Apply(table, removed, order, _) =>
      WellFormed(table) && Enumerates(removed, s.clients.Keys - table.targets) && Enumerates(order, table.targets)
  }

  function RetireOne(s: State, target: Target): State {
    if target in s.clients then
      s.(clients := s.clients - {target}, retired := s.retired + [s.clients[target]])
    else s
  }

  function RetireAll(s: State, removed: seq<Target>): State {
    if removed == [] then s
    else RetireOne(RetireAll(s, removed[..|removed| - 1]), removed[|removed| - 1])
  }

  /** Opening stops at the first target that is new and cannot be parsed. */
  datatype Opened = Opened(state: State, ok: bool)

  function OpenOne(s: State, target: Target, parsable: set<Target>): Opened {
    if target in s.clients then Opened(s, true)
    else if target !in parsable then Opened(s, false)
    else Opened(s.(clients := s.clients[target := s.next], next := s.next + 1), true)
  }

  function OpenAll(s: State, order: seq<Target>, parsable: set<Target>): Opened {
    if order == [] then Opened(s, true)
    else
      var before := OpenAll(s, order[..|order| - 1], parsable);
      if before.ok then OpenOne(before.state, order[|order| - 1], parsable) else before
  }

  function FlushIfIdle(s: State): State {
    if s.active == 0 then s.(retired := [], pending := s.pending + s.retired) else s
  }

  function ApplyStep(s: State, table: Table, removed: seq<Target>, order: seq<Target>, parsable: set<Target>): State {
    var result := OpenAll(RetireAll(s, removed), order, parsable);
    if result.ok then FlushIfIdle(result.state.(table := table, ready := true)) else result.state
  }

  function Do(s: State, step: Step): State {
    match step
    case Begin(op) => s.(active := s.active + 1, ops := s.ops[op := Snapshot(s.table, s.clients)])
    case Pick(_) => s.(counter := NextCounter(s.counter))
    case End(op) => FlushIfIdle(s.(active := s.active - 1, ops := s.ops - {op}))
    case CloseOne(i) =>
      if i < |s.pending| then s.(pending := s.pending[..i] + s.pending[i + 1..], closed := s.closed + [s.pending[i]])
      else s
    case Apply(table, removed, order, parsable) => ApplyStep(s, table, removed, order, parsable)
  }

  // ---------- runs ----------

  function After(steps: seq<Step>): State {
    if steps == [] then START else Do(After(steps[..|steps| - 1]), steps[|steps| - 1])
  }

  ghost predicate Legal(steps: seq<Step>) {
    steps == [] || (Legal(steps[..|steps| - 1]) && Enabled(After(steps[..|steps| - 1]), steps[|steps| - 1]))
  }

  /** The application stopped at a target that cannot be parsed. */
  predicate Fails(s: State, step: Step) {
    step.Apply? && !OpenAll(RetireAll(s, step.removed), step.order, step.parsable).ok
  }

  /** Every topology of the run was applied to the end. */
  ghost predicate NoneFails(steps: seq<Step>) {
    forall i :: 0 <= i < |steps| ==> !Fails(After(steps[..i]), steps[i])
  }

  // ---------- conservation ----------

  function Holders(clients: map<Target, Id>, id: Id): set<Target> {
    set target | target in clients && clients[target] == id
  }

  /** In how many places a direct client is, and how often. */
  function Places(s: State, id: Id): nat {
    |Holders(s.clients, id)| + multiset(s.retired)[id] + multiset(s.pending)[id] + multiset(s.closed)[id]
  }

  /** Every client ever created is current, retired, waiting for its close or closed: one of these, and once. */
  ghost predicate Conserved(s: State) {
    forall id: Id :: Places(s, id) == if id < s.next then 1 else 0
  }

  /** Conservation proper: what exists is where it was, however it moved. */
  ghost predicate SamePlaces(s: State, s': State) {
    s.next == s'.next && forall id: Id :: Places(s', id) == Places(s, id)
  }

  lemma RetireOneConserves(s: State, target: Target)
    ensures SamePlaces(s, RetireOne(s, target))
  {
    if target in s.clients {
      var s' := RetireOne(s, target);
      forall id: Id
        ensures Places(s', id) == Places(s, id)
      {
        var before, after := Holders(s.clients, id), Holders(s'.clients, id);
        if s.clients[target] == id {
          assert before == after + {target} && target !in after;
        } else {
          assert before == after;
        }
        assert multiset(s'.retired) == multiset(s.retired) + multiset{s.clients[target]};
      }
    }
  }

  lemma {:induction false} RetireConserves(s: State, removed: seq<Target>)
    ensures SamePlaces(s, RetireAll(s, removed))
  {
    if removed != [] {
      var n := |removed| - 1;
      RetireConserves(s, removed[..n]);
      RetireOneConserves(RetireAll(s, removed[..n]), removed[n]);
    }
  }

  lemma OpenOneConserves(s: State, target: Target, parsable: set<Target>)
    requires Conserved(s)
    ensures Conserved(OpenOne(s, target, parsable).state)
  {
    var s' := OpenOne(s, target, parsable).state;
    if s' != s {
      forall id: Id
        ensures Places(s', id) == if id < s'.next then 1 else 0
      {
        assert Places(s, id) == if id < s.next then 1 else 0;
        var before, after := Holders(s.clients, id), Holders(s'.clients, id);
        if id == s.next {
          assert after == before + {target} && target !in before;
        } else {
          assert after == before;
        }
      }
    }
  }

  lemma {:induction false} OpenConserves(s: State, order: seq<Target>, parsable: set<Target>)
    requires Conserved(s)
    ensures Conserved(OpenAll(s, order, parsable).state)
  {
    if order != [] {
      var n := |order| - 1;
      OpenConserves(s, order[..n], parsable);
      OpenOneConserves(OpenAll(s, order[..n], parsable).state, order[n], parsable);
    }
  }

  lemma FlushConserves(s: State)
    requires Conserved(s)
    ensures Conserved(FlushIfIdle(s))
  {
    var s' := FlushIfIdle(s);
    assert multiset(s.pending + s.retired) == multiset(s.pending) + multiset(s.retired);
    forall id: Id
      ensures Places(s', id) == Places(s, id)
    {
    }
  }

  lemma CloseConserves(s: State, i: nat)
    requires Conserved(s) && i < |s.pending|
    ensures Conserved(Do(s, CloseOne(i)))
  {
    var s' := Do(s, CloseOne(i));
    assert s.pending == s.pending[..i] + [s.pending[i]] + s.pending[i + 1..];
    assert multiset(s.pending) == multiset(s'.pending) + multiset{s.pending[i]};
    assert multiset(s'.closed) == multiset(s.closed) + multiset{s.pending[i]};
    forall id: Id
      ensures Places(s', id) == Places(s, id)
    {
    }
  }

  /** A step that leaves the four places alone conserves. */
  lemma UntouchedConserves(s: State, s': State)
    requires Conserved(s) && s'.next == s.next && s'.clients == s.clients
    requires s'.retired == s.retired && s'.pending == s.pending && s'.closed == s.closed
    ensures Conserved(s')
  {
    assert forall id: Id :: Places(s', id) == Places(s, id);
  }

  lemma ApplyConserves(s: State, step: Step)
    requires Conserved(s) && step.Apply?
    ensures Conserved(Do(s, step))
  {
    RetireConserves(s, step.removed);
    OpenConserves(RetireAll(s, step.removed), step.order, step.parsable);
    var result := OpenAll(RetireAll(s, step.removed), step.order, step.parsable);
    if result.ok {
      var s' := result.state.(table := step.table, ready := true);
      UntouchedConserves(result.state, s');
      FlushConserves(s');
    }
  }

  lemma StepConserves(s: State, step: Step)
    requires Conserved(s) && Enabled(s, step)
    ensures Conserved(Do(s, step))
  {
    match step
    case Begin(_) => UntouchedConserves(s, Do(s, step));
    case Pick(_) => UntouchedConserves(s, Do(s, step));
    case End(op) =>
      var s' := s.(active := s.active - 1, ops := s.ops - {op});
      UntouchedConserves(s, s');
      FlushConserves(s');
    case CloseOne(i) => CloseConserves(s, i);
    case Apply(_, _, _, _) => ApplyConserves(s, step);
  }

  /** In every run, even one whose topology applications fail halfway, no client is lost, shared or closed twice. */
  lemma {:induction false} ClientsAreConserved(steps: seq<Step>)
    requires Legal(steps)
    ensures Conserved(After(steps))
  {
    if steps == [] {
      forall id: Id
        ensures Places(START, id) == 0
      {
        assert Holders(START.clients, id) == {};
      }
    } else {
      var n := |steps| - 1;
      ClientsAreConserved(steps[..n]);
      StepConserves(After(steps[..n]), steps[n]);
    }
  }

  // ---------- clients in use stay open ----------

  /** A client that may still be used: not closed, and not waiting for its close either. */
  predicate InService(s: State, id: Id) {
    id in s.clients.Values || id in s.retired
  }

  /** The counter counts the operations in flight, and what they hold is in service. */
  ghost predicate Guarded(s: State) {
    s.active == |s.ops|
    && forall op, target :: op in s.ops && target in s.ops[op].clients ==> InService(s, s.ops[op].clients[target])
  }

  ghost predicate KeepsInService(s: State, s': State) {
    s'.ops == s.ops && s'.active == s.active && forall id :: InService(s, id) ==> InService(s', id)
  }

  lemma RetireOneKeeps(s: State, target: Target)
    ensures KeepsInService(s, RetireOne(s, target))
  {
    var s' := RetireOne(s, target);
    if target in s.clients {
      forall id | InService(s, id)
        ensures InService(s', id)
      {
        if id in s.retired {
          assert id in s'.retired;
        } else {
          var t :| t in s.clients && s.clients[t] == id;
          if t == target {
            assert s'.retired[|s.retired|] == id;
          } else {
            assert t in s'.clients && s'.clients[t] == id;
          }
        }
      }
    }
  }

  lemma OpenOneKeeps(s: State, target: Target, parsable: set<Target>)
    ensures KeepsInService(s, OpenOne(s, target, parsable).state)
  {
    var s' := OpenOne(s, target, parsable).state;
    forall id | id in s.clients.Values
      ensures id in s'.clients.Values
    {
      var t :| t in s.clients && s.clients[t] == id;
      assert t in s'.clients && s'.clients[t] == id;
    }
  }

  lemma {:induction false} RetireKeeps(s: State, removed: seq<Target>)
    ensures KeepsInService(s, RetireAll(s, removed))
  {
    if removed != [] {
      var n := |removed| - 1;
      RetireKeeps(s, removed[..n]);
      RetireOneKeeps(RetireAll(s, removed[..n]), removed[n]);
    }
  }

  lemma {:induction false} OpenKeeps(s: State, order: seq<Target>, parsable: set<Target>)
    ensures KeepsInService(s, OpenAll(s, order, parsable).state)
  {
    if order != [] {
      var n := |order| - 1;
      OpenKeeps(s, order[..n], parsable);
      OpenOneKeeps(OpenAll(s, order[..n], parsable).state, order[n], parsable);
    }
  }

  /** Flushing is safe because it happens only when nothing is in flight. */
  lemma FlushGuards(s: State)
    requires Guarded(s)
    ensures Guarded(FlushIfIdle(s))
  {
    if s.active == 0 {
      assert s.ops == map[];
    }
  }

  lemma BeginGuards(s: State, op: Op)
    requires Guarded(s) && op !in s.ops
    ensures Guarded(Do(s, Begin(op)))
  {
    var s' := Do(s, Begin(op));
    assert s'.ops.Keys == s.ops.Keys + {op};
    assert |s'.ops| == |s'.ops.Keys|;
    forall o, target | o in s'.ops && target in s'.ops[o].clients
      ensures InService(s', s'.ops[o].clients[target])
    {
      assert o != op ==> InService(s, s.ops[o].clients[target]);
    }
  }

  lemma EndGuards(s: State, op: Op)
    requires Guarded(s) && op in s.ops
    ensures Guarded(Do(s, End(op)))
  {
    var s' := s.(active := s.active - 1, ops := s.ops - {op});
    assert s.ops.Keys == s'.ops.Keys + {op};
    assert |s'.ops| == |s'.ops.Keys|;
    forall o, target | o in s'.ops && target in s'.ops[o].clients
      ensures InService(s', s'.ops[o].clients[target])
    {
      assert InService(s, s.ops[o].clients[target]);
    }
    FlushGuards(s');
  }

  lemma KeepsGuards(s: State, s': State)
    requires Guarded(s) && KeepsInService(s, s')
    ensures Guarded(s')
  {
  }

  lemma ApplyGuards(s: State, step: Step)
    requires Guarded(s) && step.Apply?
    ensures Guarded(Do(s, step))
  {
    hide Guarded, InService;
    var retired := RetireAll(s, step.removed);
    var result := OpenAll(retired, step.order, step.parsable);
    RetireKeeps(s, step.removed);
    KeepsGuards(s, retired);
    OpenKeeps(retired, step.order, step.parsable);
    KeepsGuards(retired, result.state);
    if result.ok {
      var s' := result.state.(table := step.table, ready := true);
      SameGuards(result.state, s');
      FlushGuards(s');
    }
  }

  /** A step that moves no client and no operation keeps the guard. */
  lemma SameGuards(s: State, s': State)
    requires Guarded(s) && s'.ops == s.ops && s'.active == s.active
    requires s'.clients == s.clients && s'.retired == s.retired
    ensures Guarded(s')
  {
  }

  lemma StepGuards(s: State, step: Step)
    requires Guarded(s) && Enabled(s, step)
    ensures Guarded(Do(s, step))
  {
    hide Guarded, InService;
    match step
    case Begin(op) => BeginGuards(s, op);
    case Pick(_) => SameGuards(s, Do(s, step));
    case End(op) => EndGuards(s, op);
    case CloseOne(_) => SameGuards(s, Do(s, step));
    case Apply(_, _, _, _) => ApplyGuards(s, step);
  }

  lemma {:induction false} RunGuards(steps: seq<Step>)
    requires Legal(steps)
    ensures Guarded(After(steps))
  {
    if steps != [] {
      RunGuards(steps[..|steps| - 1]);
      StepGuards(After(steps[..|steps| - 1]), steps[|steps| - 1]);
    }
  }

  /**
   In every run the active counter is the number of operations in flight, and no client that
   one of them holds has been closed or is waiting to be.
   */
  lemma NoneClosedInFlight(steps: seq<Step>, op: Op, target: Target)
    requires Legal(steps)
    ensures var s := After(steps);
            && s.active == |s.ops|
            && (op in s.ops && target in s.ops[op].clients ==>
                  s.ops[op].clients[target] !in s.closed && s.ops[op].clients[target] !in s.pending)
  {
    RunGuards(steps);
    ClientsAreConserved(steps);
    var s := After(steps);
    if op in s.ops && target in s.ops[op].clients {
      ServiceExcludes(s, s.ops[op].clients[target]);
    }
  }

  lemma ServiceExcludes(s: State, id: Id)
    requires Conserved(s) && InService(s, id)
    ensures id !in s.closed && id !in s.pending && id < s.next
  {
    assert Places(s, id) == if id < s.next then 1 else 0;
    if id in s.clients.Values {
      var t :| t in s.clients && s.clients[t] == id;
      assert t in Holders(s.clients, id);
    }
  }

  // ---------- nothing stays retired while idle ----------

  predicate Flushed(s: State) {
    s.active == 0 ==> s.retired == []
  }

  lemma {:induction false} RetiredCount(s: State, removed: seq<Target>)
    requires forall t <- removed :: t in s.clients
    requires forall i, j :: 0 <= i < j < |removed| ==> removed[i] != removed[j]
    ensures var s' := RetireAll(s, removed);
            && |s'.retired| == |s.retired| + |removed|
            && s'.active == s.active && s'.table == s.table && s'.ready == s.ready && s'.ops == s.ops
            && s'.clients == s.clients - (set t | t in removed)
  {
    if removed != [] {
      var n := |removed| - 1;
      RetiredCount(s, removed[..n]);
      assert removed == removed[..n] + [removed[n]];
      assert removed[n] !in removed[..n];
    }
  }

  /** What opening leaves alone, and which targets have a client afterwards. */
  lemma {:induction false} OpenEffect(s: State, order: seq<Target>, parsable: set<Target>)
    ensures var result := OpenAll(s, order, parsable);
            var s' := result.state;
            && s'.retired == s.retired && s'.active == s.active && s'.table == s.table && s'.ready == s.ready
            && s'.ops == s.ops
            && s.clients.Keys <= s'.clients.Keys <= s.clients.Keys + (set t | t in order)
            && (forall t <- s.clients :: s'.clients[t] == s.clients[t])
            && (result.ok <==> forall t <- order :: t in s.clients || t in parsable)
            && (result.ok ==> forall t <- order :: t in s'.clients)
  {
    if order != [] {
      var n := |order| - 1;
      OpenEffect(s, order[..n], parsable);
      assert order == order[..n] + [order[n]];
      var before := OpenAll(s, order[..n], parsable);
      if before.ok {
        if order[n] in before.state.clients && order[n] !in s.clients {
          assert order[n] in order[..n];
        }
      } else {
        var t :| t in order[..n] && !(t in s.clients || t in parsable);
        assert t in order;
      }
    }
  }

  /** The state right after opening has stopped, before the table is replaced. */
  function Refreshed(s: State, step: Step): State
    requires step.Apply?
  {
    OpenAll(RetireAll(s, step.removed), step.order, step.parsable).state
  }

  lemma ApplyParts(s: State, step: Step)
    requires step.Apply? && Enabled(s, step)
    ensures var r := Refreshed(s, step);
            && (forall t <- r.clients :: t in step.table.targets)
            && (forall t <- s.clients :: t in r.clients <==> t in step.table.targets)
            && (forall t <- s.clients :: t in r.clients ==> r.clients[t] == s.clients[t])
            && (!Fails(s, step) ==> r.clients.Keys == step.table.targets)
            && r.table == s.table && r.ready == s.ready && r.ops == s.ops && r.active == s.active
            && |r.retired| == |s.retired| + |step.removed|
  {
    RetiredCount(s, step.removed);
    OpenEffect(RetireAll(s, step.removed), step.order, step.parsable);
    hide RetireAll, OpenAll;
  }

  lemma FailsExactly(s: State, step: Step)
    requires step.Apply? && Enabled(s, step)
    ensures Fails(s, step) <==> exists t <- step.table.targets :: t !in s.clients && t !in step.parsable
  {
    RetiredCount(s, step.removed);
    OpenEffect(RetireAll(s, step.removed), step.order, step.parsable);
    hide RetireAll, OpenAll;
  }

  lemma ApplyDoes(s: State, step: Step)
    requires step.Apply?
    ensures var r := Refreshed(s, step);
            Do(s, step) == if Fails(s, step) then r else FlushIfIdle(r.(table := step.table, ready := true))
  {
  }

  /**
   Applying a topology succeeds exactly when every new target can be parsed; then exactly the
   targets of the topology have a client. In any case a target that had one and is still
   listed keeps it, and one that is not listed loses it.
   */
  lemma ApplyExact(s: State, step: Step)
    requires step.Apply? && Enabled(s, step)
    ensures Fails(s, step) <==> exists t <- step.table.targets :: t !in s.clients && t !in step.parsable
    ensures var s' := Do(s, step);
            && (forall t <- s.clients :: t in s'.clients <==> t in step.table.targets)
            && (forall t <- s.clients :: t in s'.clients ==> s'.clients[t] == s.clients[t])
            && (!Fails(s, step) ==> s'.clients.Keys == step.table.targets && s'.table == step.table && s'.ready)
            && (Fails(s, step) ==> s'.table == s.table && s'.ready == s.ready)
  {
    hide Fails, Refreshed, Do, Enabled;
    FailsExactly(s, step);
    ApplyParts(s, step);
    ApplyDoes(s, step);
  }

  /** The one step that leaves something retired on an idle client is a failing application that dropped a target. */
  lemma FlushExactly(s: State, step: Step)
    requires Guarded(s) && Flushed(s) && Enabled(s, step)
    ensures Flushed(Do(s, step)) <==> !(Fails(s, step) && s.active == 0 && !(s.clients.Keys <= step.table.targets))
  {
    if step.Apply? {
      hide *;
      NothingRemoved(s, step);
      ApplyParts(s, step);
      ApplyDoes(s, step);
      FlushesOr(s, Refreshed(s, step), step);
    }
  }

  lemma NothingRemoved(s: State, step: Step)
    requires step.Apply? && Enabled(s, step)
    ensures step.removed == [] <==> s.clients.Keys <= step.table.targets
  {
    var gone := s.clients.Keys - step.table.targets;
    if step.removed != [] {
      assert step.removed[0] in gone;
    } else {
      assert forall t <- s.clients.Keys :: t !in gone;
    }
  }

  lemma FlushesOr(s: State, r: State, step: Step)
    requires step.Apply? && Flushed(s) && r.active == s.active && |r.retired| == |s.retired| + |step.removed|
    ensures Flushed(r) <==> !(s.active == 0 && step.removed != [])
    ensures Flushed(FlushIfIdle(r.(table := step.table, ready := true)))
  {
  }

  lemma NoneFailsBefore(steps: seq<Step>)
    requires steps != [] && NoneFails(steps)
    ensures NoneFails(steps[..|steps| - 1]) && !Fails(After(steps[..|steps| - 1]), steps[|steps| - 1])
  {
    var n := |steps| - 1;
    forall i | 0 <= i < n
      ensures !Fails(After(steps[..n][..i]), steps[..n][i])
    {
      assert steps[..n][..i] == steps[..i];
    }
  }

  /** If all targets could be parsed, nothing is retired whenever no operation is in flight. */
  lemma {:induction false} IdleMeansFlushed(steps: seq<Step>)
    requires Legal(steps) && NoneFails(steps)
    ensures Flushed(After(steps))
  {
    if steps != [] {
      var n := |steps| - 1;
      NoneFailsBefore(steps);
      IdleMeansFlushed(steps[..n]);
      RunGuards(steps[..n]);
      FlushExactly(After(steps[..n]), steps[n]);
    }
  }

  // ---------- snapshots resolve their own routes ----------

  /** The table has shards, and each of its routes leads to a client. */
  ghost predicate Resolves(table: Table, clients: map<Target, Id>) {
    && table.maxShards > 0 && "" !in clients
    && forall route <- table.routes :: table.routes[route] in clients
  }

  ghost predicate Consistent(s: State) {
    && (s.ready ==> Resolves(s.table, s.clients))
    && forall op <- s.ops :: Resolves(s.ops[op].table, s.ops[op].clients)
  }

  /** Snapshots are immutable, so only an application can break consistency, and only by failing. */
  lemma StepConsistent(s: State, step: Step)
    requires Consistent(s) && Enabled(s, step) && !Fails(s, step)
    ensures Consistent(Do(s, step))
  {
    if step.Apply? {
      hide Fails, Refreshed;
      ApplyParts(s, step);
      ApplyDoes(s, step);
    }
  }

  lemma {:induction false} SnapshotsAreConsistent(steps: seq<Step>)
    requires Legal(steps) && NoneFails(steps)
    ensures Consistent(After(steps))
  {
    if steps != [] {
      NoneFailsBefore(steps);
      SnapshotsAreConsistent(steps[..|steps| - 1]);
      StepConsistent(After(steps[..|steps| - 1]), steps[|steps| - 1]);
    }
  }

  /**
   After a failing application the old table is still in force, and its routes still resolve
   exactly when the new topology keeps every target that the old one routes to.
   */
  lemma FailedApplyConsistent(s: State, step: Step)
    requires Consistent(s) && s.ready && step.Apply? && Enabled(s, step) && Fails(s, step)
    ensures Do(s, step).table == s.table
    ensures Consistent(Do(s, step)) <==>
              forall route <- s.table.routes :: s.table.routes[route] in step.table.targets
  {
    hide Fails, Refreshed;
    ApplyParts(s, step);
    ApplyDoes(s, step);
  }

  /** A concrete run: the second topology drops "a:1" and lists a target without a port. */
  lemma FailedApplyLeavesDeadRoute() returns (steps: seq<Step>)
    ensures Legal(steps) && After(steps).ready && After(steps).active == 0
    ensures !Consistent(After(steps)) && After(steps).clients == map[] && After(steps).retired == [0]
  {
    var first := Table(1, map[(MASTER, 0) := "a:1"], {"a:1"});
    var second := Table(1, map[(MASTER, 0) := "b"], {"b"});
    var one, two := Apply(first, [], ["a:1"], {"a:1"}), Apply(second, ["a:1"], ["b"], {"a:1"});
    steps := [one, two];
    hide Enumerates;
    AfterTwo(one, two);
    assert "b" != "a:1" by { assert |"b"| != |"a:1"|; }
    assert Enumerates([], START.clients.Keys - first.targets) by { NoneEnumerated(); }
    OneEnumerated("a:1");
    OneEnumerated("b");
    OneStep(START, "a:1", {"a:1"});
    var s := Do(START, one);
    assert RetireAll(START, []) == START;
    assert s == State(first, map["a:1" := 0], [], 0, true, 0, 1, [], [], map[]);
    OneStep(s, "a:1", {"a:1"});
    assert s.clients - {"a:1"} == map[];
    OneStep(RetireOne(s, "a:1"), "b", {"a:1"});
    assert Do(s, two) == RetireOne(s, "a:1");
    assert (MASTER, 0) in Do(s, two).table.routes;
  }

  lemma NoneEnumerated()
    ensures Enumerates<Target>([], {}) && START.clients.Keys == {}
  {
  }

  lemma OneEnumerated(x: Target)
    ensures Enumerates([x], {x})
  {
  }

  lemma OneStep(s: State, target: Target, parsable: set<Target>)
    ensures RetireAll(s, [target]) == RetireOne(s, target)
    ensures OpenAll(s, [target], parsable) == OpenOne(s, target, parsable)
  {
    assert [target][..0] == [];
    assert RetireAll(s, []) == s && OpenAll(s, [], parsable) == Opened(s, true);
  }

  lemma AfterTwo(one: Step, two: Step)
    ensures After([one, two]) == Do(Do(START, one), two)
    ensures Legal([one, two]) <==> Enabled(START, one) && Enabled(Do(START, one), two)
  {
    assert [one, two][..1] == [one] && [one][..0] == [];
    assert After([]) == START && Legal([]);
    assert After([one]) == Do(START, one);
    assert Legal([one]) <==> Enabled(START, one);
  }

  // ---------- what a snapshot holds ----------

  /** The snapshot step i takes is kept, whatever happens, until the operation ends. */
  lemma {:induction false} SnapshotIsKept(steps: seq<Step>, i: nat, op: Op)
    requires Legal(steps) && i < |steps| && steps[i] == Begin(op)
    requires forall j :: i < j < |steps| ==> steps[j] != End(op)
    ensures var begun := After(steps[..i]);
            && op in After(steps).ops
            && After(steps).ops[op] == Snapshot(begun.table, begun.clients)
    decreases |steps|
  {
    var n := |steps| - 1;
    if i < n {
      var before := steps[..n];
      assert before[..i] == steps[..i];
      assert forall j :: i < j < |before| ==> before[j] == steps[j];
      SnapshotIsKept(before, i, op);
      OthersKept(After(before), steps[n], op);
    } else {
      assert steps[..n] == steps[..i];
    }
  }

  lemma OthersKept(s: State, step: Step, op: Op)
    requires Enabled(s, step) && op in s.ops && step != End(op)
    ensures op in Do(s, step).ops && Do(s, step).ops[op] == s.ops[op]
  {
    if step.Apply? {
      RetireKeeps(s, step.removed);
      OpenKeeps(RetireAll(s, step.removed), step.order, step.parsable);
    }
  }

  // ---------- closing ----------

  /** Once nothing waits, every client ever created is current, retired or closed. */
  lemma NothingPending(steps: seq<Step>, id: Id)
    requires Legal(steps) && After(steps).pending == [] && id < After(steps).next
    ensures InService(After(steps), id) || id in After(steps).closed
  {
    ClientsAreConserved(steps);
    var s := After(steps);
    assert Places(s, id) == 1;
    if id !in s.clients.Values {
      assert Holders(s.clients, id) == {};
    }
  }

  // ---------- the counter under interleaving ----------

  /** The counter values of the hintless selections of a run, in order. */
  function Picked(steps: seq<Step>): seq<nat> {
    if steps == [] then []
    else
      Picked(steps[..|steps| - 1])
      + if steps[|steps| - 1].Pick? then [After(steps).counter] else []
  }

  lemma {:induction false} OnlyPicksCount(s: State, step: Step)
    ensures Do(s, step).counter == if step.Pick? then NextCounter(s.counter) else s.counter
  {
    if step.Apply? {
      RetireKeepsCounter(s, step.removed);
      OpenKeepsCounter(RetireAll(s, step.removed), step.order, step.parsable);
    }
  }

  lemma {:induction false} RetireKeepsCounter(s: State, removed: seq<Target>)
    ensures RetireAll(s, removed).counter == s.counter
  {
    if removed != [] {
      RetireKeepsCounter(s, removed[..|removed| - 1]);
    }
  }

  lemma {:induction false} OpenKeepsCounter(s: State, order: seq<Target>, parsable: set<Target>)
    ensures OpenAll(s, order, parsable).state.counter == s.counter
  {
    if order != [] {
      OpenKeepsCounter(s, order[..|order| - 1], parsable);
    }
  }

  /** Selections of concurrent operations share one sequence of counters, whatever happens between them. */
  lemma {:induction false} PicksAreConsecutive(steps: seq<Step>)
    ensures After(steps).counter == |Picked(steps)| % COUNTER_RANGE
    ensures forall i :: 0 <= i < |Picked(steps)| ==> Picked(steps)[i] == (i + 1) % COUNTER_RANGE
  {
    if steps != [] {
      var n := |steps| - 1;
      PicksAreConsecutive(steps[..n]);
      OnlyPicksCount(After(steps[..n]), steps[n]);
    }
  }

  /** As many selections as there are shards reach every shard, and none twice. */
  ghost predicate ReachEachOnce(picks: seq<nat>)
    requires picks != []
  {
    && (forall i, j :: 0 <= i < j < |picks| ==> picks[i] % |picks| != picks[j] % |picks|)
    && (forall shard :: 0 <= shard < |picks| ==> Reaches(picks, shard))
  }

  ghost predicate Reaches(picks: seq<nat>, shard: nat)
    requires picks != []
  {
    exists i :: 0 <= i < |picks| && picks[i] % |picks| == shard
  }

  /**
   maxShards consecutive hintless selections of a run, however other steps interleave, reach every
   shard of a fixed topology exactly once if and only if the counter does not wrap among them or
   maxShards divides 2^31.
   */
  lemma PicksReachEveryShard(steps: seq<Step>, from: nat, maxShards: nat)
    requires maxShards > 0 && from + maxShards <= |Picked(steps)|
    ensures ReachEachOnce(Picked(steps)[from..from + maxShards]) <==>
              (from + 1) % COUNTER_RANGE + maxShards <= COUNTER_RANGE || COUNTER_RANGE % maxShards == 0
  {
    hide Picked, After;
    var first, picks := (from + 1) % COUNTER_RANGE, Picked(steps)[from..from + maxShards];
    PicksAreConsecutive(steps);
    RoundRobinExact(maxShards, first);
    forall i | 0 <= i < maxShards
      ensures picks[i] % maxShards == RoundRobin(maxShards, first, i)
    {
      CounterAt(from + 1, i);
    }
    SameHits(picks, first);
  }

  lemma SameHits(picks: seq<nat>, first: nat)
    requires picks != []
    requires forall i :: 0 <= i < |picks| ==> picks[i] % |picks| == RoundRobin(|picks|, first, i)
    ensures ReachEachOnce(picks) <==> HitsEachOnce(|picks|, first)
  {
    hide RoundRobin;
    forall shard | 0 <= shard < |picks|
      ensures Reaches(picks, shard) <==> Reached(|picks|, first, shard)
    {
      if Reached(|picks|, first, shard) {
        var i :| 0 <= i < |picks| && RoundRobin(|picks|, first, i) == shard;
        assert picks[i] % |picks| == shard;
      }
    }
  }

  lemma CounterAt(a: nat, i: nat)
    ensures (a + i) % COUNTER_RANGE == (a % COUNTER_RANGE + i) % COUNTER_RANGE
  {
  }
}
