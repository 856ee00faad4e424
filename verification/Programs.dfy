/** The peers of a built program, and what clean checks make of them. */
module Programs {
  import opened Wrappers
  import opened Ir
  import opened Checks
  import opened CheckPlans
  import Addressing
  import Groups
  import Routing

  type Net = Routing.Net
  type Routes = map<string, seq<Routing.Route>>

  // ----- a peer's address

  /** The target's address on the first of these data segments it is on. */
  function AddressAmong(net: Net, segments: seq<string>, target: string): Option<Address> {
    if segments == [] then None
    else
      var a := Routing.AddressOn(net, target, segments[0]);
      if a.Some? then a else AddressAmong(net, segments[1..], target)
  }

  /** The target's address on the first segment routed to that it is on. */
  function AddressRouted(net: Net, routes: seq<Routing.Route>, target: string): Option<Address> {
    if routes == [] then None
    else
      var a := Routing.AddressOn(net, target, routes[0].segment);
      if a.Some? then a else AddressRouted(net, routes[1..], target)
  }

  function RoutesFrom(routes: Routes, source: string): seq<Routing.Route> {
    if source in routes then routes[source] else []
  }

  /** ``_peer_address``. */
  function PeerAddress(net: Net, routes: Routes, source: string, target: string): Option<Address> {
    var shared := AddressAmong(net, Routing.SegmentsOf(net, source), target);
    if shared.Some? then shared else AddressRouted(net, RoutesFrom(routes, source), target)
  }

  /** A data segment the source is on or has a route to. */
  ghost predicate InReach(net: Net, routes: Routes, source: string, segment: string) {
    && segment in net.data
    && (segment in Routing.SegmentsOf(net, source) || exists r :: r in RoutesFrom(routes, source) && r.segment == segment)
  }

  /** Routes lead to data segments, as the planner's do. */
  ghost predicate OnData(net: Net, routes: Routes) {
    forall i, r :: i in routes && r in routes[i] ==> r.segment in net.data
  }

  lemma {:induction false} AmongIs(net: Net, segments: seq<string>, target: string)
    ensures AddressAmong(net, segments, target).Some? <==> exists x :: x in segments && Routing.AddressOn(net, target, x).Some?
    ensures AddressAmong(net, segments, target).Some? ==>
      exists x :: x in segments && Routing.AddressOn(net, target, x) == AddressAmong(net, segments, target)
  {
    if segments != [] {
      AmongIs(net, segments[1..], target);
      assert forall x :: x in segments <==> x == segments[0] || x in segments[1..];
    }
  }

  lemma {:induction false} RoutedIs(net: Net, routes: seq<Routing.Route>, target: string)
    ensures AddressRouted(net, routes, target).Some? <==> exists r :: r in routes && Routing.AddressOn(net, target, r.segment).Some?
    ensures AddressRouted(net, routes, target).Some? ==>
      exists r :: r in routes && Routing.AddressOn(net, target, r.segment) == AddressRouted(net, routes, target)
  {
    if routes != [] {
      RoutedIs(net, routes[1..], target);
      assert forall r :: r in routes <==> r == routes[0] || r in routes[1..];
    }
  }

  /** A peer has an address exactly when check 10 finds it reachable, and it is one the source can reach. */
  lemma PeerAddressIsReachable(net: Net, routes: Routes, source: string, target: string)
    requires OnData(net, routes)
    ensures PeerAddress(net, routes, source, target).Some? <==> Routing.Reachable(net, routes, source, target)
    ensures PeerAddress(net, routes, source, target).Some? ==>
      exists x :: InReach(net, routes, source, x) && Routing.AddressOn(net, target, x) == PeerAddress(net, routes, source, target)
  {
    var mine, mineRoutes := Routing.SegmentsOf(net, source), RoutesFrom(routes, source);
    AmongIs(net, mine, target);
    RoutedIs(net, mineRoutes, target);
    Routing.Interfaces(net, source);
    forall x
      ensures x in Routing.SegmentsOf(net, target) <==> x in net.data && Routing.AddressOn(net, target, x).Some?
    {
      Routing.Interface(net, target, x);
    }
    if AddressAmong(net, mine, target).Some? {
      var x :| x in mine && Routing.AddressOn(net, target, x) == AddressAmong(net, mine, target);
      assert InReach(net, routes, source, x);
    } else if AddressRouted(net, mineRoutes, target).Some? {
      var r :| r in mineRoutes && Routing.AddressOn(net, target, r.segment) == AddressRouted(net, mineRoutes, target);
      assert InReach(net, routes, source, r.segment);
      var k :| 0 <= k < |routes[source]| && routes[source][k] == r;
    }
    if Routing.Reachable(net, routes, source, target) && AddressAmong(net, mine, target).None? {
      var k :| 0 <= k < |routes[source]| && routes[source][k].segment in Routing.SegmentsOf(net, target);
      assert routes[source][k] in mineRoutes;
    }
  }

  // ----- the peers of a program

  /** The targets with an address to reach them at, in order. */
  function PeersAmong(net: Net, routes: Routes, source: string, reached: seq<string>): seq<(string, Address)> {
    if reached == [] then []
    else
      var before, last := PeersAmong(net, routes, source, reached[..|reached| - 1]), reached[|reached| - 1];
      match PeerAddress(net, routes, source, last)
      case None => before
      case Some(a) => before + [(last, a)]
  }

  function PeersOf(s: Scenario, net: Net, routes: Routes, i: Groups.Instance, tie: string): seq<(string, Address)> {
    match TargetsOf(s, i.group, i.kind, tie)
    case None => []
    case Some(reached) => PeersAmong(net, routes, i.id, reached)
  }

  /** The part of ``build_programs`` that finds the peers of one instance on one tie. */
  method BuildPeers(s: Scenario, net: Net, routes: Routes, i: Groups.Instance, tie: string) returns (found: seq<(string, Address)>)
    ensures found == PeersOf(s, net, routes, i, tie)
  {
    var reached := Targets(s, i.group, i.kind, tie);
    found := [];
    if reached.None? {
      return;
    }
    for n := 0 to |reached.value|
      invariant found == PeersAmong(net, routes, i.id, reached.value[..n])
    {
      assert reached.value[..n + 1][..n] == reached.value[..n];
      var address := PeerAddress(net, routes, i.id, reached.value[n]);
      if address.Some? {
        found := found + [(reached.value[n], address.value)];
      }
    }
    assert reached.value[..|reached.value|] == reached.value;
  }

  /** Every target is a peer, at an address the source can reach. */
  ghost predicate AllPeers(net: Net, routes: Routes, source: string, reached: seq<string>, peers: seq<(string, Address)>) {
    && |peers| == |reached|
    && forall k :: 0 <= k < |reached| ==> IsPeer(net, routes, source, reached[k], peers[k])
  }

  ghost predicate IsPeer(net: Net, routes: Routes, source: string, target: string, peer: (string, Address)) {
    && peer.0 == target
    && exists x :: InReach(net, routes, source, x) && Routing.AddressOn(net, target, x) == Some(peer.1)
  }

  lemma {:induction false} EveryTargetIsPeer(net: Net, routes: Routes, source: string, reached: seq<string>)
    requires OnData(net, routes) && forall t :: t in reached ==> Routing.Reachable(net, routes, source, t)
    ensures AllPeers(net, routes, source, reached, PeersAmong(net, routes, source, reached))
  {
    if reached != [] {
      hide Routing.Reachable, PeerAddress, AllPeers, IsPeer, OnData;
      var n := |reached| - 1;
      EveryTargetIsPeer(net, routes, source, reached[..n]);
      assert reached[n] in reached;
      ReachableIsPeer(net, routes, source, reached[n]);
      OneMorePeer(net, routes, source, reached[..n], PeersAmong(net, routes, source, reached[..n]), reached[n],
                  (reached[n], PeerAddress(net, routes, source, reached[n]).value));
      assert reached[..n] + [reached[n]] == reached;
    }
  }

  lemma OneMorePeer(net: Net, routes: Routes, source: string, reached: seq<string>, peers: seq<(string, Address)>, target: string,
                    peer: (string, Address))
    requires AllPeers(net, routes, source, reached, peers) && IsPeer(net, routes, source, target, peer)
    ensures AllPeers(net, routes, source, reached + [target], peers + [peer])
  {
    hide IsPeer;
  }

  lemma ReachableIsPeer(net: Net, routes: Routes, source: string, target: string)
    requires OnData(net, routes) && Routing.Reachable(net, routes, source, target)
    ensures PeerAddress(net, routes, source, target).Some?
    ensures IsPeer(net, routes, source, target, (target, PeerAddress(net, routes, source, target).value))
  {
    hide Routing.Reachable, PeerAddress, OnData;
    PeerAddressIsReachable(net, routes, source, target);
  }

  // ----- clean checks give total programs

  /** Every instance is on a data segment. */
  ghost predicate AllAttached(s: Scenario, net: Net) {
    forall i :: i in Groups.InstanceIds(s) ==> Routing.SegmentsOf(net, i.id) != []
  }

  /** Check 10 looks at the wires of this instance's kind, or has nothing to look for on this one. */
  predicate Covered(i: Groups.Instance, targets: seq<string>) {
    '.' !in i.kind || forall x :: x in targets ==> x == i.id
  }

  /** The wire of tie ``t`` of an instance: its group's key, the tie a program is built from, and its targets. */
  ghost predicate IsWire(s: Scenario, i: Groups.Instance, k: nat, t: nat, key: string, tie: Tie, targets: seq<string>) {
    && k < |s.kinds| && s.kinds[k].name == i.kind && t < |s.kinds[k].ties|
    && key == WireKey(i.kind, s.kinds[k].ties[t].name) && FindTie(s.kinds[k].ties, s.kinds[k].ties[t].name) == Some(tie)
    && TargetsOf(s, i.group, i.kind, tie.name) == Some(targets)
  }

  /** The tie check 1 counts under the key stands for the one a program is built from. */
  ghost predicate Vouched(s: Scenario, order: Order, i: Groups.Instance, key: string, tie: Tie) {
    forall g :: 0 <= g < |s.groups| && s.groups[g].path == i.group && key in Expected(s, s.groups[g], order) ==>
      Stands(Expected(s, s.groups[g], order)[key], tie)
  }

  /** So it is, in any order, where every tie of a held kind under the key does. */
  lemma AllStandIsVouched(s: Scenario, order: Order, i: Groups.Instance, key: string, tie: Tie)
    requires Named(s) && IsOrder(s, order)
    requires forall g :: 0 <= g < |s.groups| && s.groups[g].path == i.group ==> AllStand(s, s.groups[g], key, tie)
    ensures Vouched(s, order, i, key, tie)
  {
    hide Named, Expected, HoldsKind, WireKey;
    forall g | 0 <= g < |s.groups| && s.groups[g].path == i.group && key in Expected(s, s.groups[g], order)
      ensures Stands(Expected(s, s.groups[g], order)[key], tie)
    {
      ExpectedIs(s, s.groups[g], order, key);
    }
  }

  predicate NoDotsHeld(s: Scenario, g: Group) {
    forall m :: 0 <= m < |s.kinds| && HoldsKind(s, g, s.kinds[m].name) ==> '.' !in s.kinds[m].name
  }

  /** With no dot in the names of the kinds its group holds, and its kind's ties of different names, a tie is the one counted. */
  lemma PlainTiesAreCounted(s: Scenario, order: Order, i: Groups.Instance, k: nat, t: nat, key: string, tie: Tie, targets: seq<string>)
    requires Named(s) && IsOrder(s, order) && IsWire(s, i, k, t, key, tie, targets) && DistinctTies(s.kinds[k].ties)
    requires '.' !in i.kind && forall g :: 0 <= g < |s.groups| && s.groups[g].path == i.group ==> NoDotsHeld(s, s.groups[g])
    ensures forall g :: 0 <= g < |s.groups| && s.groups[g].path == i.group && key in Expected(s, s.groups[g], order) ==>
      Expected(s, s.groups[g], order)[key] == tie
    ensures Vouched(s, order, i, key, tie)
  {
    hide Named, Expected, HoldsKind, TargetsOf, WireKey;
    var j := FindTieIs(s.kinds[k].ties, t);
    forall g | 0 <= g < |s.groups| && s.groups[g].path == i.group && key in Expected(s, s.groups[g], order)
      ensures Expected(s, s.groups[g], order)[key] == tie
    {
      PlainKeyIsOne(s, s.groups[g], k, t);
      ExpectedIs(s, s.groups[g], order, key);
    }
  }

  /** With check 1 clean every tie of an instance is a wire, as often as it allows if the tie counted stands for it. */
  lemma EveryTieIsWired(s: Scenario, order: Order, i: Groups.Instance, k: nat, t: nat)
    returns (key: string, tie: Tie, targets: seq<string>, g: nat)
    requires TiesAreClean(s, order) && i in Groups.InstanceIds(s)
    requires k < |s.kinds| && s.kinds[k].name == i.kind && t < |s.kinds[k].ties|
    ensures IsWire(s, i, k, t, key, tie, targets) && (Vouched(s, order, i, key, tie) ==> Allows(tie.multiplicity, |targets|))
    ensures g < |s.groups| && s.groups[g].path == i.group && Has(s.groups[g].wiring, key)
  {
    hide CheckTies, IsOrder, Named, Expected, TargetsOf, WireKey, Allows, Stands, AllStand;
    var k';
    g, k' := HomeOf(s.groups, s.kinds, i);
    NamesApart(s);
    CleanTie(s, order, g, k, t);
    var j := FindTieIs(s.kinds[k].ties, t);
    tie, key := s.kinds[k].ties[j], WireKey(i.kind, s.kinds[k].ties[t].name);
    targets := TargetsOf(s, i.group, i.kind, tie.name).value;
  }

  /**
   * Clean checks give total programs: on each tie of its kind an instance has exactly its targets as
   * peers, each at an address it shares a segment with or routes to, if the tie is covered, and then as
   * many as the tie allows, if the tie counted stands for it.
   */
  lemma CleanChecksGiveTotalPrograms(s: Scenario, order: Order, net: Net, routes: Routes, i: Groups.Instance, k: nat, t: nat,
                                     key: string, tie: Tie, targets: seq<string>)
    requires TiesAreClean(s, order) && GroupsReach(s, net, routes, s.groups) == []
    requires OnData(net, routes) && AllAttached(s, net)
    requires i in Groups.InstanceIds(s) && IsWire(s, i, k, t, key, tie, targets) && Covered(i, targets)
    ensures var peers := PeersOf(s, net, routes, i, tie.name);
            && AllPeers(net, routes, i.id, targets, peers)
            && (Vouched(s, order, i, key, tie) ==> Allows(tie.multiplicity, |peers|))
  {
    hide TiesAreClean, TargetsOf, GroupsReach, OnData, Vouched, AllPeers, Groups.InstanceIds, Routing.Reachable;
    var key', tie', targets', g := EveryTieIsWired(s, order, i, k, t);
    var _ := FindTieIs(s.kinds[k].ties, t);
    forall target | target in targets
      ensures Routing.Reachable(net, routes, i.id, target)
    {
      if '.' !in i.kind {
        WireReaches(s, net, routes, i, g, key, tie, targets, target);
      } else {
        SelfReaches(s, net, routes, i);
      }
    }
    EveryTargetIsPeer(net, routes, i.id, targets);
    SameLength(net, routes, i.id, targets, PeersOf(s, net, routes, i, tie.name));
  }

  lemma SameLength(net: Net, routes: Routes, source: string, reached: seq<string>, peers: seq<(string, Address)>)
    requires AllPeers(net, routes, source, reached, peers)
    ensures |peers| == |reached|
  {
  }

  lemma SelfReaches(s: Scenario, net: Net, routes: Routes, i: Groups.Instance)
    requires AllAttached(s, net) && i in Groups.InstanceIds(s)
    ensures Routing.Reachable(net, routes, i.id, i.id)
  {
    hide Groups.InstanceIds, Routing.SegmentsOf;
    var x := Routing.SegmentsOf(net, i.id)[0];
    assert x in Routing.SegmentsOf(net, i.id);
  }

  /** A clean reach looked at this wire: its key, cut at the first dot, is the kind's and the tie's. */
  lemma WireReaches(s: Scenario, net: Net, routes: Routes, i: Groups.Instance, g: nat, key: string, tie: Tie,
                    targets: seq<string>, target: string)
    requires GroupsReach(s, net, routes, s.groups) == [] && i in Groups.InstanceIds(s) && '.' !in i.kind
    requires g < |s.groups| && s.groups[g].path == i.group && Has(s.groups[g].wiring, key) && key == WireKey(i.kind, tie.name)
    requires TargetsOf(s, i.group, i.kind, tie.name) == Some(targets) && target in targets
    ensures Routing.Reachable(net, routes, i.id, target)
  {
    hide GroupsReach, TargetsOf, Groups.InstanceIds, Routing.Reachable, HeldBy, AllDead, WiresReach;
    CleanGroupReach(s, net, routes, s.groups, g);
    CleanWireReach(s, net, routes, i.group, s.groups[g].wiring, key);
    AtDotOfKey(i.kind, tie.name);
    HeldHas(Groups.InstanceIds(s), i);
    NoDead(net, routes, HeldBy(Groups.InstanceIds(s), i.group, i.kind), targets, i.id, target);
  }

  // ----- and exactly when they do

  lemma {:induction false} PeersAreReachable(net: Net, routes: Routes, source: string, targets: seq<string>, peers: seq<(string, Address)>,
                                             target: string)
    requires OnData(net, routes) && AllPeers(net, routes, source, targets, peers) && target in targets
    ensures Routing.Reachable(net, routes, source, target)
  {
    var k :| 0 <= k < |targets| && targets[k] == target;
    assert IsPeer(net, routes, source, target, peers[k]);
    var x :| InReach(net, routes, source, x) && Routing.AddressOn(net, target, x) == Some(peers[k].1);
    Routing.Interface(net, target, x);
    if x !in Routing.SegmentsOf(net, source) {
      var r :| r in RoutesFrom(routes, source) && r.segment == x;
      var n :| 0 <= n < |routes[source]| && routes[source][n] == r;
    }
  }

  /** On unambiguous routes an instance has all the targets of a tie as peers exactly when forwarders join it to each. */
  lemma TotalExactlyWhenJoined(s: Scenario, net: Net, i: Groups.Instance, tie: string, targets: seq<string>)
    requires Routing.WellFormed(net) && Routing.NoAmbiguity(net) && i.id in net.ids
    requires TargetsOf(s, i.group, i.kind, tie) == Some(targets)
    ensures AllPeers(net, Routing.Planned(net), i.id, targets, PeersOf(s, net, Routing.Planned(net), i, tie)) <==>
      forall x :: x in targets ==> Routing.JoinedByForwarders(net, i.id, x)
  {
    hide Routing.WellFormed, Routing.NoAmbiguity, Routing.Planned, Routing.Reachable, Routing.JoinedByForwarders, AllPeers, TargetsOf,
         OnData, PeersAmong;
    var routes := Routing.Planned(net);
    PlannedRoutesOnData(net);
    forall x
      ensures Routing.Reachable(net, routes, i.id, x) <==> Routing.JoinedByForwarders(net, i.id, x)
    {
      Routing.ReachableIsConnectivity(net, i.id, x);
    }
    if AllPeers(net, routes, i.id, targets, PeersOf(s, net, routes, i, tie)) {
      forall x | x in targets
        ensures Routing.JoinedByForwarders(net, i.id, x)
      {
        PeersAreReachable(net, routes, i.id, targets, PeersOf(s, net, routes, i, tie), x);
      }
    }
    if forall x :: x in targets ==> Routing.JoinedByForwarders(net, i.id, x) {
      EveryTargetIsPeer(net, routes, i.id, targets);
    }
  }

  lemma {:induction false} NoDeadAmong(net: Net, routes: Routes, sources: seq<string>, reached: seq<string>)
    requires forall a, b :: a in sources && b in reached ==> Routing.Reachable(net, routes, a, b)
    ensures AllDead(net, routes, sources, reached) == []
  {
    hide Routing.Reachable;
    if sources != [] {
      NoDeadAmong(net, routes, sources[..|sources| - 1], reached);
      NoDeadFrom(net, routes, sources[|sources| - 1], reached);
    }
  }

  lemma {:induction false} NoDeadFrom(net: Net, routes: Routes, source: string, reached: seq<string>)
    requires forall b :: b in reached ==> Routing.Reachable(net, routes, source, b)
    ensures DeadPairs(net, routes, source, reached) == []
  {
    hide Routing.Reachable;
    if reached != [] {
      NoDeadFrom(net, routes, source, reached[..|reached| - 1]);
    }
  }

  /** What stands before the first dot has none. */
  lemma {:induction false} BeforeDot(key: string)
    ensures '.' !in AtDot(key).0
  {
    if key != "" && key[0] != '.' {
      BeforeDot(key[1..]);
    }
  }

  // ----- the plans together

  /** An address plan, sound as every one is, gives each address on a segment to one instance. */
  lemma PlansAreUnique(s: Scenario, t: Topology, plan: AddressPlan, problems: seq<Addressing.Problem>)
    requires Addressing.Planned(s, t, plan, problems)
    ensures Routing.UniqueAddresses(Routing.NetOf(s, t, plan))
  {
    var net, held := Routing.NetOf(s, t, plan), plan.addresses;
    forall x, i, j | Routing.AddressOn(net, i, x).Some? && Routing.AddressOn(net, i, x) == Routing.AddressOn(net, j, x)
      ensures i == j
    {
      assert Addressing.On(held, i, x) == Addressing.On(held, j, x);
    }
  }

  lemma PlannedRoutesOnData(net: Net)
    requires Routing.WellFormed(net)
    ensures OnData(net, Routing.Planned(net))
  {
    forall i, r | i in Routing.Planned(net) && r in Routing.Planned(net)[i]
      ensures r.segment in net.data
    {
      Routing.RoutesOfMember(net, i, r);
    }
  }

  /** The first definition of a segment is on the data plane. */
  predicate FirstOnData(t: Topology, x: string) {
    exists k :: 0 <= k < |t.segments| && t.segments[k].name == x && t.segments[k].plane == Data
                && !Addressing.Named(t.segments[..k], x)
  }

  /** The prefix an address of a plan lies in is its segment's, by its first definition. */
  lemma PrefixOf(s: Scenario, t: Topology, plan: AddressPlan, problems: seq<Addressing.Problem>, x: string, i: string) returns (k: nat)
    requires Addressing.Planned(s, t, plan, problems) && Addressing.On(plan.addresses, i, x).Some?
    ensures k < |t.segments| && t.segments[k].name == x && !Addressing.Named(t.segments[..k], x) && t.segments[k].cidr.Some?
    ensures Addressing.IsHost(t.segments[k].cidr.value, Addressing.On(plan.addresses, i, x).value)
  {
    hide Addressing.Planned, Addressing.Sound, Addressing.Named;
    var usable, defs := Addressing.UsableSegments(t), Addressing.FirstDefinitions(t.segments);
    PlanIsSound(s, t, plan, problems);
    OnHost(usable, Addressing.MemberLists(s, t), plan.addresses, i, x);
    var e := (x, Lookup(usable, x).value);
    Addressing.DefinitionsDistinct(t.segments);
    Addressing.PrefixesFrom(defs);
    Addressing.UsableFrom(Addressing.Prefixes(defs));
    assert e in usable;
    var d :| 0 <= d < |defs| && defs[d].name == e.0 && defs[d].cidr == Some(e.1);
    k := FirstOf(t.segments, defs[d]);
  }

  lemma {:induction false} FirstOf(segments: seq<Segment>, d: Segment) returns (k: nat)
    requires d in Addressing.FirstDefinitions(segments)
    ensures k < |segments| && segments[k] == d && !Addressing.Named(segments[..k], d.name)
  {
    var n := |segments| - 1;
    if d in Addressing.FirstDefinitions(segments[..n]) {
      k := FirstOf(segments[..n], d);
      assert segments[..n][..k] == segments[..k];
    } else {
      k := n;
    }
  }

  lemma PlanIsSound(s: Scenario, t: Topology, plan: AddressPlan, problems: seq<Addressing.Problem>)
    requires Addressing.Planned(s, t, plan, problems)
    ensures Addressing.Sound(Addressing.UsableSegments(t), Addressing.MemberLists(s, t), plan.addresses)
  {
    hide Addressing.Sound;
  }

  lemma OnHost(usable: OrderedMap<string, Network>, members: map<string, seq<string>>, held: Addressing.Held, i: string, x: string)
    requires Addressing.Sound(usable, members, held) && Addressing.On(held, i, x).Some?
    ensures x in members && i in members[x]
    ensures Lookup(usable, x).Some? && Addressing.IsHost(Lookup(usable, x).value, Addressing.On(held, i, x).value)
  {
    assert Addressing.Legit(usable, members, i, x, Addressing.On(held, i, x).value);
  }

  /** The first definition is on the data plane, so this one is. */
  lemma OneFirst(t: Topology, x: string, k: nat)
    requires FirstOnData(t, x) && k < |t.segments| && t.segments[k].name == x && !Addressing.Named(t.segments[..k], x)
    ensures t.segments[k].plane == Data
  {
    var j :| 0 <= j < |t.segments| && t.segments[j].name == x && t.segments[j].plane == Data && !Addressing.Named(t.segments[..j], x);
  }

  /** Where check 10 finds no data segments overlapping, an address is one host's on one segment, whatever was reported. */
  lemma OneHostPerAddress(s: Scenario, t: Topology, plan: AddressPlan, problems: seq<Addressing.Problem>, x: string, y: string,
                          i: string, j: string)
    requires Addressing.Planned(s, t, plan, problems) && Overlaps(t.segments, |t.segments|) == []
    requires FirstOnData(t, x) && FirstOnData(t, y) && Addressing.On(plan.addresses, i, x).Some?
    requires Addressing.On(plan.addresses, i, x) == Addressing.On(plan.addresses, j, y)
    ensures x == y && i == j
  {
    hide Addressing.Planned, Overlaps, FirstOnData;
    var a := PrefixOf(s, t, plan, problems, x, i);
    var b := PrefixOf(s, t, plan, problems, y, j);
    OneFirst(t, x, a);
    OneFirst(t, y, b);
    if a < b {
      NoOverlaps(t.segments, |t.segments|, a, b);
    } else if b < a {
      NoOverlaps(t.segments, |t.segments|, b, a);
    }
    PlanIsSound(s, t, plan, problems);
    assert i != j ==> Addressing.On(plan.addresses, i, x) != Addressing.On(plan.addresses, j, x);
  }

  /** On a clean plan a route carries a prefix, and every address the plan gives anyone on its segment is a host of it. */
  lemma RouteCovers(s: Scenario, t: Topology, plan: AddressPlan, i: string, r: Routing.Route, j: string)
    requires Addressing.Planned(s, t, plan, []) && Routing.WellFormed(Routing.NetOf(s, t, plan))
    requires var routes := Routing.Planned(Routing.NetOf(s, t, plan)); i in routes && r in routes[i]
    ensures r.cidr.Some?
    ensures Addressing.On(plan.addresses, j, r.segment).Some? ==>
      Addressing.IsHost(r.cidr.value, Addressing.On(plan.addresses, j, r.segment).value)
  {
    hide Addressing.Planned, Addressing.Sound, Addressing.SurveyProblems, Addressing.FirstDefinitions, Routing.WellFormed, Routing.NetOf,
         Routing.Planned;
    Routing.RoutePrefix(s, t, plan, i, r);
    var k: nat :| Routing.LastNamed(t, k) && t.segments[k].name == r.segment && r.cidr == t.segments[k].cidr;
    NothingToSurvey(s, t, plan);
    Addressing.CleanMeansUsable(t.segments, k);
    if Addressing.On(plan.addresses, j, r.segment).Some? {
      var f := PrefixOf(s, t, plan, [], r.segment, j);
      OnceNamed(t.segments, f, k);
    }
  }

  lemma NothingToSurvey(s: Scenario, t: Topology, plan: AddressPlan)
    requires Addressing.Planned(s, t, plan, [])
    ensures Addressing.SurveyProblems(t.segments) == []
  {
    hide Addressing.Sound, Addressing.Settled, Addressing.Complete, Addressing.RoomProblems, Addressing.SurveyProblems;
  }

  lemma {:induction false} NotNamedBefore(segments: seq<Segment>, k: nat)
    requires Addressing.SurveyProblems(segments) == [] && k < |segments|
    ensures !Addressing.Named(segments[..k], segments[k].name)
  {
    var n := |segments| - 1;
    if k < n {
      NotNamedBefore(segments[..n], k);
      assert segments[..n][..k] == segments[..k];
    }
  }

  lemma NamedBefore(segments: seq<Segment>, a: nat, b: nat)
    requires a < b < |segments| && segments[a].name == segments[b].name
    ensures Addressing.Named(segments[..b], segments[b].name)
  {
    assert segments[..b][a].name == segments[b].name;
  }

  /** Nothing to survey, no name is defined twice. */
  lemma OnceNamed(segments: seq<Segment>, a: nat, b: nat)
    requires Addressing.SurveyProblems(segments) == [] && a < |segments| && b < |segments| && segments[a].name == segments[b].name
    ensures a == b
  {
    hide Addressing.SurveyProblems, Addressing.Named;
    NotNamedBefore(segments, a);
    NotNamedBefore(segments, b);
    if a < b {
      NamedBefore(segments, a, b);
    } else if b < a {
      NamedBefore(segments, b, a);
    }
  }

  // ----- attachments and a complete plan

  lemma {:induction false} PlaneIsLast(segments: seq<Segment>, name: string) returns (k: nat)
    requires PlaneOf(segments, name).Some?
    ensures k < |segments| && segments[k].name == name && PlaneOf(segments, name) == Some(segments[k].plane)
  {
    var n := |segments| - 1;
    if segments[n].name == name {
      k := n;
    } else {
      k := PlaneIsLast(segments[..n], name);
    }
  }

  lemma {:induction false} AttachmentsIs(groups: seq<Group>, g: nat)
    requires g < |groups| && forall j :: g < j < |groups| ==> groups[j].path != groups[g].path
    ensures Addressing.AttachmentsOf(groups, groups[g].path) == groups[g].attachments
  {
    if g < |groups| - 1 {
      AttachmentsIs(groups[..|groups| - 1], g);
    }
  }

  /** An instance of a kind its group attaches to a data segment is a member of that segment. */
  lemma JoinsIt(s: Scenario, t: Topology, i: Groups.Instance, g: nat, x: string) returns (k: nat)
    requires Named(s) && i in Groups.InstanceIds(s) && g < |s.groups| && s.groups[g].path == i.group
    requires x in NetworksOf(s.groups[g], i.kind) && PlaneOf(t.segments, x) == Some(Data)
    ensures k < |t.segments| && t.segments[k].name == x && t.segments[k].plane == Data && i.id in Addressing.Members(s, t.segments[k])
  {
    hide Groups.InstanceIds, Named;
    k := PlaneIsLast(t.segments, x);
    NamesApart(s);
    AttachmentsIs(s.groups, g);
    Addressing.JoiningMember(s, Groups.InstanceIds(s), t.segments[k], i.id);
    var n :| 0 <= n < |Groups.InstanceIds(s)| && Groups.InstanceIds(s)[n] == i;
  }

  /** Attachments clean and the plan complete, every instance is on a data segment. */
  lemma CleanIsAttached(s: Scenario, t: Topology, plan: AddressPlan, problems: seq<Addressing.Problem>)
    requires Named(s) && OfGroups(s, t, s.groups) == [] && Addressing.Complete(s, t, plan.addresses)
    ensures AllAttached(s, Routing.NetOf(s, t, plan))
  {
    hide OfGroups, Groups.InstanceIds, Named, Addressing.Members, PlaneOf;
    var net := Routing.NetOf(s, t, plan);
    forall i | i in Groups.InstanceIds(s)
      ensures Routing.SegmentsOf(net, i.id) != []
    {
      var g, x := AttachedTo(s, t, i);
      var k := JoinsIt(s, t, i, g, x);
      assert Addressing.On(plan.addresses, i.id, x).Some?;
      Routing.Interface(net, i.id, x);
    }
  }

  lemma AttachedTo(s: Scenario, t: Topology, i: Groups.Instance) returns (g: nat, x: string)
    requires OfGroups(s, t, s.groups) == [] && i in Groups.InstanceIds(s)
    ensures g < |s.groups| && s.groups[g].path == i.group
    ensures x in NetworksOf(s.groups[g], i.kind) && PlaneOf(t.segments, x) == Some(Data)
  {
    hide OfGroups, PlaneOf, OfInstances, NetworksOf;
    var k;
    g, k := HomeOf(s.groups, s.kinds, i);
    CleanAttachments(s, t, s.groups, g);
    CountIsHeld(s, s.groups[g], k);
    var e :| 0 <= e < |s.groups[g].instances| && s.groups[g].instances[e].0 == i.kind && s.groups[g].instances[e].1 > 0;
    NoneAstray(s, t, s.groups[g], s.groups[g].instances, e);
    var n :| 0 <= n < |NetworksOf(s.groups[g], i.kind)| && PlaneOf(t.segments, NetworksOf(s.groups[g], i.kind)[n]) == Some(Data);
    x := NetworksOf(s.groups[g], i.kind)[n];
  }

  /** Some run of forwarding from ``i`` ends on the segment, after as many hops as the segment is away. */
  ghost predicate Delivered(net: Net, i: string, dest: string)
    requires Routing.WellFormed(net)
  {
    exists hosts :: Routing.Delivery(net, i, dest, hosts)
  }

  /** Every instance's program has on each covered tie all its targets as peers, as many as it allows if the tie counted stands for it. */
  ghost predicate TotalPrograms(s: Scenario, order: Order, net: Net, routes: Routes) {
    forall i, k: nat, t: nat, key, tie, targets ::
      i in Groups.InstanceIds(s) && IsWire(s, i, k, t, key, tie, targets) && Covered(i, targets) ==>
        var peers := PeersOf(s, net, routes, i, tie.name);
        AllPeers(net, routes, i.id, targets, peers) && (Vouched(s, order, i, key, tie) ==> Allows(tie.multiplicity, |peers|))
  }

  /** An instance's program has all the targets of a tie as peers exactly when forwarders join it to each. */
  ghost predicate JoinedPrograms(s: Scenario, net: Net, routes: Routes) {
    forall i, tie, targets :: i in Groups.InstanceIds(s) && TargetsOf(s, i.group, i.kind, tie) == Some(targets) ==>
      (AllPeers(net, routes, i.id, targets, PeersOf(s, net, routes, i, tie)) <==>
       forall x :: x in targets ==> Routing.JoinedByForwarders(net, i.id, x))
  }

  /**
   * Check 10 run on the planners' own plans. If it finds nothing packets are delivered and programs have the
   * targets they are joined to; if check 1 finds nothing either, covered ties have all their targets.
   */
  method CheckThenBuild(s: Scenario, t: Topology, ghost order: Order) returns (found: seq<Finding>, plan: AddressPlan, routes: Routes)
    requires Groups.DistinctIds(s) && DistinctKeys(t.pins) && |t.segments| < Routing.FAR
    ensures var net := Routing.NetOf(s, t, plan);
            && Routing.WellFormed(net) && Routing.UniqueAddresses(net) && routes == Routing.Planned(net)
            && (found == [] ==> Routing.NoAmbiguity(net) && Addressing.Complete(s, t, plan.addresses))
            && (found == [] ==> forall i, r :: i in net.ids && r in routes[i] ==> Delivered(net, i, r.segment))
            && (found == [] ==> JoinedPrograms(s, net, routes))
            && (found == [] && TiesAreClean(s, order) ==> TotalPrograms(s, order, net, routes))
  {
    hide Addressing.Planned, Addressing.Complete, Findings, TiesAreClean, TotalPrograms, JoinedPrograms, Delivered, Routing.Planned,
         Routing.Problems, Routing.WellFormed, Routing.UniqueAddresses, Routing.NoAmbiguity;
    var problems, routeProblems;
    plan, problems, routes, routeProblems, found := Check(s, t);
    PlansAreUnique(s, t, plan, problems);
    if found == [] {
      FindingsClean(s, t, Routing.NetOf(s, t, plan), problems, routes, routeProblems);
      PlanIsComplete(s, t, plan);
      AllDelivered(Routing.NetOf(s, t, plan));
      PlannedIsJoined(s, t, plan);
      if TiesAreClean(s, order) {
        PlannedIsTotal(s, order, t, plan, problems);
      }
    }
  }

  lemma PlannedIsJoined(s: Scenario, t: Topology, plan: AddressPlan)
    requires Routing.WellFormed(Routing.NetOf(s, t, plan)) && Routing.NoAmbiguity(Routing.NetOf(s, t, plan))
    ensures JoinedPrograms(s, Routing.NetOf(s, t, plan), Routing.Planned(Routing.NetOf(s, t, plan)))
  {
    hide Routing.WellFormed, Routing.NoAmbiguity, Routing.Planned, Routing.JoinedByForwarders, AllPeers, TargetsOf, PeersOf;
    var net, all := Routing.NetOf(s, t, plan), Groups.InstanceIds(s);
    forall i, tie, targets | i in all && TargetsOf(s, i.group, i.kind, tie) == Some(targets)
      ensures AllPeers(net, Routing.Planned(net), i.id, targets, PeersOf(s, net, Routing.Planned(net), i, tie)) <==>
        forall x :: x in targets ==> Routing.JoinedByForwarders(net, i.id, x)
    {
      var k :| 0 <= k < |all| && all[k] == i;
      assert net.ids[k] == i.id;
      TotalExactlyWhenJoined(s, net, i, tie, targets);
    }
  }

  lemma FindingsClean(s: Scenario, t: Topology, net: Net, problems: seq<Addressing.Problem>, routes: Routes,
                      routeProblems: seq<Routing.Problem>)
    requires Findings(s, t, net, problems, routes, routeProblems) == []
    ensures problems == [] && routeProblems == [] && Overlaps(t.segments, |t.segments|) == []
    ensures OfGroups(s, t, s.groups) == [] && GroupsReach(s, net, routes, s.groups) == []
  {
    hide Overlaps, OfGroups, GroupsReach;
    assert |AddressFindings(problems)| == 0 && |RouteFindings(routeProblems)| == 0;
  }

  lemma AllDelivered(net: Net)
    requires Routing.WellFormed(net) && Routing.UniqueAddresses(net) && Routing.Problems(net, net.ids) == []
    ensures Routing.NoAmbiguity(net)
    ensures forall i, r :: i in net.ids && r in Routing.Planned(net)[i] ==> Delivered(net, i, r.segment)
  {
    hide Routing.WellFormed, Routing.UniqueAddresses, Routing.Problems, Routing.RoutesOf, Routing.ViaOnly, Routing.NoAmbiguity;
    Routing.NoProblemsMeansUnique(net);
    forall i, r | i in net.ids && r in Routing.Planned(net)[i]
      ensures Delivered(net, i, r.segment)
    {
      Routing.RoutesOfMember(net, i, r);
      var hosts := Routing.Arrives(net, i, r.segment);
    }
  }

  lemma PlannedIsTotal(s: Scenario, order: Order, t: Topology, plan: AddressPlan, problems: seq<Addressing.Problem>)
    requires TiesAreClean(s, order) && Addressing.Planned(s, t, plan, problems) && problems == []
    requires OfGroups(s, t, s.groups) == [] && Routing.WellFormed(Routing.NetOf(s, t, plan))
    requires GroupsReach(s, Routing.NetOf(s, t, plan), Routing.Planned(Routing.NetOf(s, t, plan)), s.groups) == []
    ensures TotalPrograms(s, order, Routing.NetOf(s, t, plan), Routing.Planned(Routing.NetOf(s, t, plan)))
  {
    hide CheckTies, IsOrder, Named, OfGroups, GroupsReach, Groups.InstanceIds, AllPeers, PeersOf, Vouched, Covered, IsWire, AllAttached,
         OnData, Routing.WellFormed;
    var net := Routing.NetOf(s, t, plan);
    var routes := Routing.Planned(net);
    PlanIsComplete(s, t, plan);
    CleanIsAttached(s, t, plan, problems);
    PlannedRoutesOnData(net);
    forall i, k: nat, t: nat, key, tie, targets |
      i in Groups.InstanceIds(s) && IsWire(s, i, k, t, key, tie, targets) && Covered(i, targets)
      ensures AllPeers(net, routes, i.id, targets, PeersOf(s, net, routes, i, tie.name))
      ensures Vouched(s, order, i, key, tie) ==> Allows(tie.multiplicity, |PeersOf(s, net, routes, i, tie.name)|)
    {
      CleanChecksGiveTotalPrograms(s, order, net, routes, i, k, t, key, tie, targets);
    }
  }

  lemma PlanIsComplete(s: Scenario, t: Topology, plan: AddressPlan)
    requires Addressing.Planned(s, t, plan, [])
    ensures Addressing.Complete(s, t, plan.addresses)
  {
    hide Addressing.Sound, Addressing.Complete, Addressing.Settled;
  }
}
