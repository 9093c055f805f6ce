/** Building a route table from coordinator responses, and choosing a shard. */
module Topology {
  import opened Basics
  import opened Errors

  const MASTER: nat := 1
  const BACKUP: nat := 2

  datatype Peer = Peer(target: Target, role: nat, shards: seq<uint32>)
  datatype RoutingInfo = RoutingInfo(maxShards: uint32, peers: seq<Peer>)

  type Route = (nat, nat)   // role and shard

  datatype Table = Table(maxShards: nat, routes: map<Route, Target>, targets: set<Target>)

  const EMPTY_TABLE := Table(0, map[], {})

  datatype RoutingError =
    | NoShards
    | BadPeer
    | ShardOutside
    | ConflictingRoutes
    | NoRoutes
    | InconsistentShardCounts

  // ---------- the declared relation ----------

  predicate Declares(peer: Peer, route: Route, target: Target) {
    peer.target == target && peer.role == route.0 && route.1 in peer.shards
  }

  ghost predicate Declared(peers: seq<Peer>, route: Route, target: Target) {
    exists peer <- peers :: Declares(peer, route, target)
  }

  predicate PeerOk(maxShards: nat, peer: Peer) {
    peer.target != "" && peer.role in {MASTER, BACKUP} && forall shard <- peer.shards :: shard < maxShards
  }

  ghost predicate Unambiguous(peers: seq<Peer>) {
    forall p <- peers, q <- peers, shard <- p.shards ::
      p.role == q.role && shard in q.shards ==> p.target == q.target
  }

  /** A response the route table can be built from. */
  ghost predicate Usable(info: RoutingInfo) {
    && info.maxShards > 0
    && (forall peer <- info.peers :: PeerOk(info.maxShards, peer))
    && (exists peer <- info.peers :: peer.shards != [])
    && Unambiguous(info.peers)
  }

  predicate Routes(routes: map<Route, Target>, route: Route, target: Target) {
    route in routes && routes[route] == target
  }

  /** The table lists exactly the declared routes and the targets of all peers. */
  ghost predicate Exactly(table: Table, info: RoutingInfo) {
    && table.maxShards == info.maxShards
    && (forall route, target :: Routes(table.routes, route, target) <==> Declared(info.peers, route, target))
    && (forall target :: target in table.targets <==> exists peer <- info.peers :: peer.target == target)
  }

  /** A table that some coordinator response can produce. */
  ghost predicate WellFormed(table: Table) {
    && table.maxShards > 0 && table.routes != map[]
    && (forall route <- table.routes :: route.0 in {MASTER, BACKUP} && route.1 < table.maxShards)
    && (forall route <- table.routes :: table.routes[route] in table.targets)
    && "" !in table.targets
  }

  // ---------- building the table ----------

  /** Routes so far agree with the peers seen so far. */
  ghost predicate Collected(routes: map<Route, Target>, peers: seq<Peer>) {
    forall route, target :: Routes(routes, route, target) <==> Declared(peers, route, target)
  }

  function Seen(peers: seq<Peer>, peer: Peer, j: nat): seq<Peer>
    requires j <= |peer.shards|
  {
    peers + [Peer(peer.target, peer.role, peer.shards[..j])]
  }

  lemma SeenNone(peers: seq<Peer>, peer: Peer)
    ensures forall route, target :: Declared(Seen(peers, peer, 0), route, target) <==> Declared(peers, route, target)
  {
    forall route, target
      ensures Declared(Seen(peers, peer, 0), route, target) <==> Declared(peers, route, target)
    {
      DeclaredPush(peers, Peer(peer.target, peer.role, []), route, target);
    }
  }

  lemma DeclaredPush(peers: seq<Peer>, peer: Peer, route: Route, target: Target)
    ensures Declared(peers + [peer], route, target) <==> Declared(peers, route, target) || Declares(peer, route, target)
  {
    var all := peers + [peer];
    if Declared(peers, route, target) {
      var p :| p in peers && Declares(p, route, target);
      assert p in all;
    } else if Declares(peer, route, target) {
      assert all[|peers|] == peer;
    }
  }

  lemma SeenPush(peers: seq<Peer>, peer: Peer, j: nat, route: Route, target: Target)
    requires j < |peer.shards|
    ensures Declared(Seen(peers, peer, j + 1), route, target) <==>
              Declared(Seen(peers, peer, j), route, target)
              || (target == peer.target && route == (peer.role, peer.shards[j]))
  {
    var now, next := Peer(peer.target, peer.role, peer.shards[..j]), Peer(peer.target, peer.role, peer.shards[..j + 1]);
    DeclaredPush(peers, now, route, target);
    DeclaredPush(peers, next, route, target);
    assert next.shards == now.shards + [peer.shards[j]];
  }

  lemma CollectedPush(routes: map<Route, Target>, peers: seq<Peer>, peer: Peer, j: nat)
    requires j < |peer.shards| && Collected(routes, Seen(peers, peer, j))
    requires var route := (peer.role, peer.shards[j]); route in routes ==> routes[route] == peer.target
    ensures Collected(routes[(peer.role, peer.shards[j]) := peer.target], Seen(peers, peer, j + 1))
  {
    var routes' := routes[(peer.role, peer.shards[j]) := peer.target];
    forall route, target
      ensures Routes(routes', route, target) <==> Declared(Seen(peers, peer, j + 1), route, target)
    {
      SeenPush(peers, peer, j, route, target);
    }
  }

  /** A second target for a route that is already collected makes the response ambiguous. */
  lemma ConflictIsAmbiguous(info: RoutingInfo, routes: map<Route, Target>, i: nat, j: nat)
    requires i < |info.peers| && j < |info.peers[i].shards|
    requires Collected(routes, Seen(info.peers[..i], info.peers[i], j))
    requires var route := (info.peers[i].role, info.peers[i].shards[j] as nat);
             route in routes && routes[route] != info.peers[i].target
    ensures !Unambiguous(info.peers)
  {
    var peer := info.peers[i];
    var route: Route := (peer.role, peer.shards[j]);
    assert Routes(routes, route, routes[route]);
    DeclaredPush(info.peers[..i], Peer(peer.target, peer.role, peer.shards[..j]), route, routes[route]);
    var p :| p in info.peers[..i] && Declares(p, route, routes[route]);
    assert p in info.peers && peer in info.peers;
  }

  lemma CollectedIsUnambiguous(routes: map<Route, Target>, peers: seq<Peer>)
    requires Collected(routes, peers)
    ensures Unambiguous(peers)
  {
    forall p, q, shard | p in peers && q in peers && shard in p.shards && p.role == q.role && shard in q.shards
      ensures p.target == q.target
    {
      var route: Route := (p.role, shard);
      assert Routes(routes, route, p.target) && Routes(routes, route, q.target) by {
        assert Declares(p, route, p.target) && Declares(q, route, q.target);
      }
      assert Declared(peers, route, p.target) && Declared(peers, route, q.target);
    }
  }

  method TopologyFrom(info: RoutingInfo) returns (r: Result<Table, RoutingError>)
    ensures r.Success? <==> Usable(info)
    ensures r.Success? ==> Exactly(r.value, info) && WellFormed(r.value)
    ensures r == Failure(NoShards) <==> info.maxShards == 0
    ensures r != Failure(InconsistentShardCounts)
  {
    if info.maxShards <= 0 {
      return Failure(NoShards);
    }
    var routes: map<Route, Target> := map[];
    var targets: set<Target> := {};
    for i := 0 to |info.peers|
      invariant Collected(routes, info.peers[..i])
      invariant forall peer <- info.peers[..i] :: PeerOk(info.maxShards, peer)
      invariant forall target :: target in targets <==> exists peer <- info.peers[..i] :: peer.target == target
    {
      var peer := info.peers[i];
      assert peer in info.peers;
      if peer.target == "" || peer.role !in {MASTER, BACKUP} {
        return Failure(BadPeer);
      }
      targets := targets + {peer.target};
      SeenNone(info.peers[..i], peer);
      for j := 0 to |peer.shards|
        invariant Collected(routes, Seen(info.peers[..i], peer, j))
        invariant forall shard <- peer.shards[..j] :: shard < info.maxShards
      {
        var shard := peer.shards[j];
        assert shard in peer.shards && peer.shards[..j + 1] == peer.shards[..j] + [shard];
        if !(0 <= shard < info.maxShards) {
          assert !PeerOk(info.maxShards, peer);
          return Failure(ShardOutside);
        }
        if (peer.role, shard) in routes && routes[(peer.role, shard)] != peer.target {
          ConflictIsAmbiguous(info, routes, i, j);
          return Failure(ConflictingRoutes);
        }
        CollectedPush(routes, info.peers[..i], peer, j);
        routes := routes[(peer.role, shard) := peer.target];
      }
      assert peer.shards[..|peer.shards|] == peer.shards;
      assert info.peers[..i + 1] == Seen(info.peers[..i], peer, |peer.shards|);
    }
    assert info.peers[..|info.peers|] == info.peers;
    PartitionsGiveRoutes(routes, info.peers);
    if routes == map[] {
      return Failure(NoRoutes);
    }
    CollectedIsUnambiguous(routes, info.peers);
    SomethingDeclared(routes, info.peers);
    r := Success(Table(info.maxShards, routes, targets));
  }

  lemma PartitionsGiveRoutes(routes: map<Route, Target>, peers: seq<Peer>)
    requires Collected(routes, peers)
    ensures (exists peer <- peers :: peer.shards != []) ==> routes != map[]
  {
    if exists peer <- peers :: peer.shards != [] {
      var peer :| peer in peers && peer.shards != [];
      var route: Route := (peer.role, peer.shards[0]);
      assert Declares(peer, route, peer.target);
      assert Routes(routes, route, peer.target);
    }
  }

  lemma SomethingDeclared(routes: map<Route, Target>, peers: seq<Peer>)
    requires Collected(routes, peers) && routes != map[]
    ensures exists peer <- peers :: peer.shards != []
    ensures forall route <- routes :: exists peer <- peers :: Declares(peer, route, routes[route])
  {
    assert routes.Keys != {};
    var route :| route in routes;
    assert Routes(routes, route, routes[route]);
    forall route | route in routes
      ensures exists peer <- peers :: Declares(peer, route, routes[route])
    {
      assert Routes(routes, route, routes[route]);
    }
  }

  // ---------- what the table depends on ----------

  ghost predicate SamePeers(a: seq<Peer>, b: seq<Peer>) {
    forall peer :: peer in a <==> peer in b
  }

  lemma SamePeersDeclare(a: seq<Peer>, b: seq<Peer>, route: Route, target: Target)
    requires SamePeers(a, b)
    ensures Declared(a, route, target) <==> Declared(b, route, target)
  {
  }

  /** The table does not depend on the order in which peers are listed, or on repetitions. */
  lemma PeerOrderIsIrrelevant(a: RoutingInfo, b: RoutingInfo, s: Table, t: Table)
    requires a.maxShards == b.maxShards && SamePeers(a.peers, b.peers)
    ensures Usable(a) <==> Usable(b)
    ensures Exactly(s, a) && Exactly(t, b) ==> s == t
  {
    if Exactly(s, a) && Exactly(t, b) {
      forall route, target
        ensures Routes(s.routes, route, target) <==> Routes(t.routes, route, target)
      {
        SamePeersDeclare(a.peers, b.peers, route, target);
      }
      forall route
        ensures route in s.routes <==> route in t.routes
        ensures route in s.routes ==> s.routes[route] == t.routes[route]
      {
        if route in s.routes {
          assert Routes(s.routes, route, s.routes[route]);
        }
        if route in t.routes {
          assert Routes(t.routes, route, t.routes[route]);
        }
      }
      assert s.routes == t.routes;
      assert s.targets == t.targets;
    }
  }

  // ---------- merging responses ----------

  /** What the merged message holds after these responses. */
  function Merged(responses: seq<RoutingInfo>): RoutingInfo {
    if responses == [] then RoutingInfo(0, [])
    else
      var n := |responses| - 1;
      RoutingInfo(responses[n].maxShards, Merged(responses[..n]).peers + responses[n].peers)
  }

  /** No response differs from a positive count merged before it. */
  predicate Mergeable(responses: seq<RoutingInfo>) {
    forall i :: 0 <= i < |responses| - 1 ==>
      responses[i].maxShards == 0 || responses[i].maxShards == responses[i + 1].maxShards
  }

  method MergeTopology(responses: seq<RoutingInfo>) returns (r: Result<Table, RoutingError>)
    ensures r.Success? <==> Mergeable(responses) && Usable(Merged(responses))
    ensures r.Success? ==> Exactly(r.value, Merged(responses)) && WellFormed(r.value)
    ensures !Mergeable(responses) <==> r == Failure(InconsistentShardCounts)
  {
    var merged := RoutingInfo(0, []);
    for i := 0 to |responses|
      invariant merged == Merged(responses[..i])
      invariant Mergeable(responses[..i])
    {
      assert responses[..i + 1][..i] == responses[..i];
      assert i > 0 ==> merged.maxShards == responses[i - 1].maxShards;
      if merged.maxShards != 0 && merged.maxShards != responses[i].maxShards {
        assert responses[i - 1].maxShards != 0;
        return Failure(InconsistentShardCounts);
      }
      merged := RoutingInfo(responses[i].maxShards, merged.peers + responses[i].peers);
    }
    assert responses[..|responses|] == responses;
    r := TopologyFrom(merged);
  }

  /** Empty counts may come first; from the first positive count on, all must be equal. */
  ghost predicate ZerosThenOneCount(responses: seq<RoutingInfo>, zeros: nat) {
    && zeros < |responses| && responses[zeros].maxShards > 0
    && (forall i :: 0 <= i < zeros ==> responses[i].maxShards == 0)
    && (forall i :: zeros <= i < |responses| ==> responses[i].maxShards == responses[zeros].maxShards)
  }

  /**
   A merge reaches a usable shard count exactly when responses with count zero all come before
   the others and the others agree: the same responses may be refused in another order.
   */
  lemma MergeAcceptsExactly(responses: seq<RoutingInfo>)
    ensures Mergeable(responses) && Merged(responses).maxShards > 0 <==>
              exists zeros: nat :: ZerosThenOneCount(responses, zeros)
  {
    var n := |responses|;
    if Mergeable(responses) && Merged(responses).maxShards > 0 {
      var zeros := FirstCount(responses, n - 1);
      assert ZerosThenOneCount(responses, zeros);
    }
    if zeros: nat :| ZerosThenOneCount(responses, zeros) {
      assert responses[n - 1].maxShards == responses[zeros].maxShards;
    }
  }

  /** A table built from two peers: the master's two shards, the backup's one, and both targets. */
  lemma TwoPeers(table: Table)
    requires Exactly(table, RoutingInfo(2, [Peer("a:1", 1, [0, 1]), Peer("b:1", 2, [0])]))
    ensures table == Table(2, map[(1, 0) := "a:1", (1, 1) := "a:1", (2, 0) := "b:1"], {"a:1", "b:1"})
    ensures MASTER == 1 && BACKUP == 2
  {
    var a, b := Peer("a:1", 1, [0, 1]), Peer("b:1", 2, [0]);
    var info := RoutingInfo(2, [a, b]);
    var expected: map<Route, Target> := map[(1, 0) := "a:1", (1, 1) := "a:1", (2, 0) := "b:1"];
    assert info.peers[0] == a && info.peers[1] == b;
    forall route: Route, target
      ensures Routes(table.routes, route, target) <==> Routes(expected, route, target)
    {
      assert Declared(info.peers, route, target) <==> Declares(a, route, target) || Declares(b, route, target);
    }
    forall route: Route
      ensures route in table.routes <==> route in expected
      ensures route in expected ==> route in table.routes && table.routes[route] == expected[route]
    {
      if route in table.routes {
        assert Routes(table.routes, route, table.routes[route]);
      }
      if route in expected {
        assert Routes(expected, route, expected[route]);
      }
    }
    assert table.routes == expected;
    assert forall target :: target in table.targets <==> target == "a:1" || target == "b:1";
  }

  /** The same two responses in the other order: an empty count is passed over first, but not later. */
  lemma MergeOrderMatters()
    ensures var empty, full := RoutingInfo(0, []), RoutingInfo(1, [Peer("a:1", MASTER, [0])]);
            && Mergeable([empty, full]) && Usable(Merged([empty, full]))
            && !Mergeable([full, empty])
  {
    var peer := Peer("a:1", MASTER, [0]);
    var empty, full := RoutingInfo(0, []), RoutingInfo(1, [peer]);
    assert [empty, full][..1] == [empty] && [empty][..0] == [];
    assert Merged([]) == RoutingInfo(0, []) && Merged([empty]) == RoutingInfo(0, []);
    assert Merged([empty, full]).peers == [peer];
    assert peer in Merged([empty, full]).peers && peer.shards != [];
    assert [full, empty][0] == full && [full, empty][0 + 1] == empty;
  }

  lemma {:induction false} FirstCount(responses: seq<RoutingInfo>, k: nat) returns (zeros: nat)
    requires k < |responses| && Mergeable(responses) && responses[k].maxShards > 0
    ensures zeros <= k && responses[zeros].maxShards > 0
    ensures forall i :: 0 <= i < zeros ==> responses[i].maxShards == 0
    ensures forall i :: zeros <= i <= k ==> responses[i].maxShards == responses[zeros].maxShards
    ensures forall i :: zeros <= i < |responses| ==> responses[i].maxShards == responses[zeros].maxShards
    decreases k
  {
    if k > 0 && responses[k - 1].maxShards > 0 {
      zeros := FirstCount(responses, k - 1);
    } else {
      zeros := k;
      ZerosBefore(responses, k);
      SameAfter(responses, k, |responses| - 1);
    }
  }

  lemma {:induction false} ZerosBefore(responses: seq<RoutingInfo>, k: nat)
    requires k < |responses| && Mergeable(responses) && (k > 0 ==> responses[k - 1].maxShards == 0)
    ensures forall i :: 0 <= i < k ==> responses[i].maxShards == 0
    decreases k
  {
    if k > 1 {
      var here, next := responses[k - 2].maxShards, responses[k - 1].maxShards;
      assert here == 0 || here == next;
      ZerosBefore(responses, k - 1);
    }
  }

  lemma {:induction false} SameAfter(responses: seq<RoutingInfo>, k: nat, m: nat)
    requires k <= m < |responses| && Mergeable(responses) && responses[k].maxShards > 0
    ensures forall i :: k <= i <= m ==> responses[i].maxShards == responses[k].maxShards
    decreases m
  {
    if k < m {
      SameAfter(responses, k, m - 1);
      assert responses[m - 1].maxShards == responses[m].maxShards;
    }
  }

  ghost predicate Mentions(responses: seq<RoutingInfo>, peer: Peer) {
    exists response <- responses :: peer in response.peers
  }

  lemma {:induction false} MergedPeers(responses: seq<RoutingInfo>, peer: Peer)
    ensures peer in Merged(responses).peers <==> Mentions(responses, peer)
  {
    if responses != [] {
      var n := |responses| - 1;
      MergedPeers(responses[..n], peer);
      assert responses == responses[..n] + [responses[n]];
    }
  }

  /**
   Responses that share one positive shard count may be permuted, split or joined: two lists
   that mention the same peers are accepted together and give the same table.
   */
  lemma MergeIsInvariant(a: seq<RoutingInfo>, b: seq<RoutingInfo>, count: uint32, s: Table, t: Table)
    requires a != [] && b != [] && count > 0
    requires forall response <- a + b :: response.maxShards == count
    requires forall peer :: Mentions(a, peer) <==> Mentions(b, peer)
    ensures Mergeable(a) && Mergeable(b)
    ensures Usable(Merged(a)) <==> Usable(Merged(b))
    ensures Exactly(s, Merged(a)) && Exactly(t, Merged(b)) ==> s == t
  {
    assert forall i :: 0 <= i < |a| ==> a[i] == (a + b)[i] && (a + b)[i] in a + b;
    assert forall i :: 0 <= i < |b| ==> b[i] == (a + b)[|a| + i] && (a + b)[|a| + i] in a + b;
    forall peer
      ensures peer in Merged(a).peers <==> peer in Merged(b).peers
    {
      MergedPeers(a, peer);
      MergedPeers(b, peer);
    }
    PeerOrderIsIrrelevant(Merged(a), Merged(b), s, t);
  }
}
