/** The smart client's mutable state; every method takes one step of the machine in Refresh. */
module SmartClient {
  import opened Basics
  import opened Errors
  import opened Topology
  import opened Shards
  import opened Refresh
  import opened Router

  class Client {
    var active: int
    var retired: seq<Id>
    var topology: Table
    var clients: map<Target, Id>
    var randomShard: nat
    var ready: bool
    // the outside of the object: clients created, closes waiting in some caller, closes made, callers in flight
    var next: Id
    var pending: seq<Id>
    var closed: seq<Id>
    var ops: map<Op, Snapshot>

    function View(): State
      reads this
    {
      State(topology, clients, retired, active, ready, randomShard, next, pending, closed, ops)
    }

    constructor ()
      ensures View() == START
    {
      active, retired, topology, clients, randomShard, ready := 0, [], EMPTY_TABLE, map[], 0, false;
      next, pending, closed, ops := 0, [], [], map[];
    }

    /** `_execute` up to its try block: count the operation and take the snapshot. */
    method Enter(op: Op) returns (snapshot: Snapshot)
      requires ready && op !in ops
      modifies this
      ensures View() == Do(old(View()), Begin(op)) && snapshot == ops[op]
      ensures snapshot.table == old(topology) && snapshot.clients == old(clients) && active == old(active) + 1
    {
      active := active + 1;
      snapshot := Snapshot(topology, clients);
      ops := ops[op := snapshot];
    }

    /** `_shard`, for a caller that holds the snapshot. */
    method Shard(op: Op, hint: Option<KeyHintData>) returns (shard: nat)
      requires op in ops && ops[op].table.maxShards > 0
      modifies this`randomShard
      ensures View() == if IsHinted(hint) then old(View()) else Do(old(View()), Pick(op))
      ensures shard == ShardFor(ops[op].table.maxShards, hint, randomShard)
      ensures IsHinted(hint) ==> Selects(hint.value.week.value, ops[op].table.maxShards, shard)
      ensures !IsHinted(hint) ==> shard < ops[op].table.maxShards
      ensures !IsHinted(hint) ==> (randomShard - shard) % ops[op].table.maxShards == 0
      ensures !IsHinted(hint) && old(randomShard) < 0x8000_0000 ==>
                randomShard == if old(randomShard) == 0x7FFF_FFFF then 0 else old(randomShard) + 1
    {
      if hint.None? || hint.value.week.None? {
        randomShard := NextCounter(randomShard);
        shard := randomShard % ops[op].table.maxShards;
        RemainderSelects(randomShard, ops[op].table.maxShards);
      } else {
        HintSelects(hint.value.week.value, ops[op].table.maxShards);
        shard := Masked(hint.value.week.value) % ops[op].table.maxShards;
      }
    }

    /** The finally block of `_execute`; the clients to close are left to CloseNext. */
    method Leave(op: Op)
      requires op in ops
      modifies this
      ensures View() == Do(old(View()), Step.End(op))
      ensures active == old(active) - 1
      ensures retired == (if active == 0 then [] else old(retired))
      ensures pending == old(pending) + if active == 0 then old(retired) else []
    {
      ops := ops - {op};
      active := active - 1;
      var flushed := if active == 0 then retired else [];
      if flushed != [] {
        retired := [];
      }
      pending := pending + flushed;
    }

    /** One iteration of a closing loop; closing loops of different callers may interleave. */
    method CloseNext(index: nat)
      requires index < |pending|
      modifies this`pending, this`closed
      ensures View() == Do(old(View()), CloseOne(index))
      ensures closed == old(closed) + [old(pending)[index]]
      ensures pending == old(pending)[..index] + old(pending)[index + 1..]
    {
      closed := closed + [pending[index]];
      pending := pending[..index] + pending[index + 1..];
    }

    /** `_apply_topology` of a client that is not closed; fails at a target that cannot be parsed. */
    method ApplyTopology(table: Table, parsable: set<Target>)
      returns (ok: bool, ghost removed: seq<Target>, ghost order: seq<Target>)
      modifies this
      ensures Enumerates(removed, old(clients).Keys - table.targets) && Enumerates(order, table.targets)
      ensures View() == Do(old(View()), Apply(table, removed, order, parsable))
      ensures ok <==> !Fails(old(View()), Apply(table, removed, order, parsable))
    {
      ghost var before := View();
      removed := RetireOthers(table.targets);
      ok, order := OpenMissing(table.targets, parsable);
      if !ok {
        return;
      }
      topology := table;
      ready := true;
      if active == 0 {
        pending := pending + retired;
        retired := [];
      }
    }

    method RetireOthers(targets: set<Target>) returns (ghost removed: seq<Target>)
      modifies this`clients, this`retired
      ensures Enumerates(removed, old(clients).Keys - targets)
      ensures View() == RetireAll(old(View()), removed)
    {
      ghost var before, all := View(), clients.Keys - targets;
      removed := [];
      NothingRetired(before);
      hide RetireAll, Enumerates;
      var left := clients.Keys - targets;
      assert all - left == {};
      while left != {}
        invariant left <= all && Enumerates(removed, all - left)
        invariant left <= clients.Keys
        invariant View() == RetireAll(before, removed)
        decreases left
      {
        var target :| target in left;
        RetirePush(before, removed, target);
        retired := retired + [clients[target]];
        clients := clients - {target};
        EnumeratesPush(removed, all - left, target);
        assert all - (left - {target}) == all - left + {target};
        left := left - {target};
        removed := removed + [target];
      }
      assert all - left == all;
    }

    method OpenMissing(targets: set<Target>, parsable: set<Target>) returns (ok: bool, ghost order: seq<Target>)
      modifies this`clients, this`next
      ensures Enumerates(order, targets)
      ensures OpenAll(old(View()), order, parsable) == Opened(View(), ok)
    {
      ghost var before := View();
      order := [];
      var left := targets;
      while left != {}
        invariant left <= targets && Enumerates(order, targets - left)
        invariant OpenAll(before, order, parsable) == Opened(View(), true)
        decreases left
      {
        var target :| target in left;
        OpenPush(before, order, target, parsable);
        EnumeratesPush(order, targets - left, target);
        assert targets - (left - {target}) == targets - left + {target};
        left := left - {target};
        order := order + [target];
        if target !in clients {
          if target !in parsable {
            ghost var rest := SomeOrder(left);
            StoppedStays(before, order, rest, parsable);
            EnumeratesBoth(order, targets - left, rest, left);
            assert targets - left + left == targets;
            order := order + rest;
            return false, order;
          }
          clients := clients[target := next];
          next := next + 1;
        }
      }
      assert targets - left == targets;
      ok := true;
    }
  }

  // ---------- iteration orders ----------

  lemma NothingRetired(s: State)
    ensures RetireAll(s, []) == s && Enumerates<Target>([], {})
  {
  }

  lemma RetirePush(s: State, removed: seq<Target>, target: Target)
    ensures RetireAll(s, removed + [target]) == RetireOne(RetireAll(s, removed), target)
  {
    assert (removed + [target])[..|removed|] == removed;
  }

  lemma OpenPush(s: State, order: seq<Target>, target: Target, parsable: set<Target>)
    requires OpenAll(s, order, parsable).ok
    ensures OpenAll(s, order + [target], parsable) == OpenOne(OpenAll(s, order, parsable).state, target, parsable)
  {
    assert (order + [target])[..|order|] == order;
  }

  lemma EnumeratesPush(xs: seq<Target>, s: set<Target>, x: Target)
    requires Enumerates(xs, s) && x !in s
    ensures Enumerates(xs + [x], s + {x})
  {
    forall i, j | 0 <= i < j < |xs + [x]|
      ensures (xs + [x])[i] != (xs + [x])[j]
    {
      assert xs[i] in xs;
    }
  }

  lemma EnumeratesBoth(xs: seq<Target>, s: set<Target>, ys: seq<Target>, t: set<Target>)
    requires Enumerates(xs, s) && Enumerates(ys, t) && s !! t
    ensures Enumerates(xs + ys, s + t)
  {
    forall i, j | 0 <= i < j < |xs + ys|
      ensures (xs + ys)[i] != (xs + ys)[j]
    {
      if i < |xs| <= j {
        assert xs[i] in xs && ys[j - |xs|] in ys;
      }
    }
  }

  lemma {:induction false} SomeOrder(s: set<Target>) returns (xs: seq<Target>)
    ensures Enumerates(xs, s)
  {
    if s == {} {
      xs := [];
    } else {
      var x :| x in s;
      xs := SomeOrder(s - {x});
      EnumeratesPush(xs, s - {x}, x);
      assert s - {x} + {x} == s;
      xs := xs + [x];
    }
  }

  /** Once opening has stopped, the targets after the failing one make no difference. */
  lemma {:induction false} StoppedStays(s: State, order: seq<Target>, rest: seq<Target>, parsable: set<Target>)
    requires !OpenAll(s, order, parsable).ok
    ensures OpenAll(s, order + rest, parsable) == OpenAll(s, order, parsable)
  {
    if rest == [] {
      assert order + rest == order;
    } else {
      var n := |rest| - 1;
      StoppedStays(s, order, rest[..n], parsable);
      assert (order + rest)[..|order + rest| - 1] == order + rest[..n];
    }
  }

  // ---------- what an operation can rely on ----------

  /**
   However refreshes interleave, an operation in flight finds no endpoint only if its own
   topology routes the shard in neither role.
   */
  lemma NoEndpointMeansNoRoute(steps: seq<Step>, op: Op, shard: nat, mode: Mode, coin: bool)
    requires Legal(steps) && NoneFails(steps) && op in After(steps).ops
    ensures var snapshot := After(steps).ops[op];
            && snapshot.table.maxShards > 0
            && (EndpointsFor(snapshot.clients, snapshot.table, shard, mode, coin) == [] <==>
                  (MASTER, shard) !in snapshot.table.routes && (BACKUP, shard) !in snapshot.table.routes)
  {
    SnapshotsAreConsistent(steps);
    var snapshot := After(steps).ops[op];
    assert Resolves(snapshot.table, snapshot.clients);
  }

  /** Every endpoint an operation in flight may call is open, in every run. */
  lemma EndpointsAreOpen(steps: seq<Step>, op: Op, shard: nat, mode: Mode, coin: bool, id: Id)
    requires Legal(steps) && op in After(steps).ops
    requires var snapshot := After(steps).ops[op];
             id in EndpointsFor(snapshot.clients, snapshot.table, shard, mode, coin)
    ensures id !in After(steps).closed && id !in After(steps).pending
  {
    var snapshot := After(steps).ops[op];
    EndpointsFromSnapshot(snapshot.clients, snapshot.table, shard, mode, coin);
    var target :| target in snapshot.clients && snapshot.clients[target] == id;
    NoneClosedInFlight(steps, op, target);
  }
}
