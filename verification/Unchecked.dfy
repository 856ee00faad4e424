/** Scenarios the checks pass whose programs are not what they promise, run through the planners themselves. */
module Unchecked {
  import opened Wrappers
  import opened Ir
  import opened Ordering
  import opened Checks
  import opened CheckPlans
  import opened SharedKeys
  import Addressing
  import Graph
  import Groups
  import Planes
  import Programs
  import Routing

  // ----- one topology for all of them

  /** Two data segments and the management segment, of 256 addresses each, and no forwarder. */
  const LAB := Topology([SEGMENT_X, SEGMENT_Y, SEGMENT_M], [])

  const PREFIX_X := Network(0x0A000000, 256)
  const PREFIX_Y := Network(0x0A000100, 256)
  const PREFIX_M := Network(0x0A000200, 256)

  const SEGMENT_X := Segment("x", Some(PREFIX_X), Data)
  const SEGMENT_Y := Segment("y", Some(PREFIX_Y), Data)
  const SEGMENT_M := Segment("m", Some(PREFIX_M), Management)

  const DATA := {"x", "y"}

  lemma LabSegments()
    ensures LAB.segments[..0] == [] && LAB.segments[..1] == [SEGMENT_X] && LAB.segments[..2] == [SEGMENT_X, SEGMENT_Y]
    ensures [SEGMENT_X, SEGMENT_Y][..1] == [SEGMENT_X] && [SEGMENT_X][..0] == []
  {
  }

  lemma LabDefinitions()
    ensures Addressing.FirstDefinitions(LAB.segments) == LAB.segments && Addressing.SurveyProblems(LAB.segments) == []
  {
    LabSegments();
    assert Addressing.FirstDefinitions([SEGMENT_X]) == [SEGMENT_X];
    assert Addressing.FirstDefinitions([SEGMENT_X, SEGMENT_Y]) == [SEGMENT_X] + [SEGMENT_Y];
    assert Addressing.FirstDefinitions(LAB.segments) == [SEGMENT_X, SEGMENT_Y] + [SEGMENT_M];
    assert Addressing.SurveyProblems([SEGMENT_X]) == [];
    assert Addressing.SurveyProblems([SEGMENT_X, SEGMENT_Y]) == [];
  }

  lemma LabPrefixes()
    ensures Addressing.Prefixes(LAB.segments) == [("x", PREFIX_X), ("y", PREFIX_Y), ("m", PREFIX_M)]
  {
    LabSegments();
    assert Addressing.Prefixes([SEGMENT_X]) == [] + [("x", PREFIX_X)];
    assert Addressing.Prefixes([SEGMENT_X, SEGMENT_Y]) == [("x", PREFIX_X)] + [("y", PREFIX_Y)];
  }

  lemma {:induction false} AllRoomy(parsed: OrderedMap<string, Network>)
    requires forall e :: e in parsed ==> Addressing.Roomy(e.1)
    ensures Addressing.Usable(parsed) == parsed && Addressing.RoomProblems(parsed) == []
  {
    if parsed != [] {
      AllRoomy(parsed[..|parsed| - 1]);
    }
  }

  lemma LabUsable()
    ensures Addressing.UsableSegments(LAB) == [("x", PREFIX_X), ("y", PREFIX_Y), ("m", PREFIX_M)]
    ensures Addressing.RoomProblems(Addressing.Prefixes(Addressing.FirstDefinitions(LAB.segments))) == []
  {
    hide Addressing.FirstDefinitions, Addressing.SurveyProblems, Addressing.Prefixes, Addressing.Usable, Addressing.RoomProblems;
    LabDefinitions();
    LabPrefixes();
    AllRoomy([("x", PREFIX_X), ("y", PREFIX_Y), ("m", PREFIX_M)]);
  }

  lemma LabMembers(s: Scenario)
    ensures Addressing.MemberLists(s, LAB) ==
      map["x" := Addressing.Members(s, SEGMENT_X), "y" := Addressing.Members(s, SEGMENT_Y), "m" := Addressing.Members(s, SEGMENT_M)]
  {
    hide Addressing.Members, Addressing.FirstDefinitions, Addressing.SurveyProblems;
    LabDefinitions();
    LabSegments();
    assert Addressing.MembersByName(s, []) == map[];
    assert Addressing.MembersByName(s, [SEGMENT_X]) == map["x" := Addressing.Members(s, SEGMENT_X)];
    assert Addressing.MembersByName(s, [SEGMENT_X, SEGMENT_Y]) ==
      map["x" := Addressing.Members(s, SEGMENT_X), "y" := Addressing.Members(s, SEGMENT_Y)];
  }

  lemma {:induction false} FewJoin(s: Scenario, instances: seq<Groups.Instance>, seg: Segment)
    ensures |Addressing.Joining(s, instances, seg)| <= |instances|
  {
    hide Addressing.Joins;
    if instances != [] {
      FewJoin(s, instances[1..], seg);
    }
  }

  /** Nothing stops the address plan of a few instances. */
  lemma LabPlanIsClean(s: Scenario, plan: AddressPlan, problems: seq<Addressing.Problem>)
    requires Addressing.Planned(s, LAB, plan, problems) && |Groups.InstanceIds(s)| <= 253
    ensures problems == []
  {
    hide Addressing.Planned, Addressing.UsableSegments, Addressing.SurveyProblems, Addressing.RoomProblems, Addressing.MemberLists,
         Addressing.Joining, Groups.InstanceIds, Addressing.Prefixes, Addressing.FirstDefinitions;
    LabDefinitions();
    LabUsable();
    LabMembers(s);
    FewJoin(s, Groups.InstanceIds(s), SEGMENT_X);
    FewJoin(s, Groups.InstanceIds(s), SEGMENT_Y);
    FewJoin(s, Groups.InstanceIds(s), SEGMENT_M);
    Addressing.CleanExactlyWhen(s, LAB, plan, problems);
  }

  /** An instance has an address only where it joins. */
  lemma OnlyWhereJoined(s: Scenario, plan: AddressPlan, problems: seq<Addressing.Problem>, i: Groups.Instance, n: nat)
    requires Addressing.Planned(s, LAB, plan, problems) && Groups.DistinctIds(s) && i in Groups.InstanceIds(s) && n < 3
    requires Addressing.On(plan.addresses, i.id, LAB.segments[n].name).Some?
    ensures Addressing.Joins(s, i, LAB.segments[n])
  {
    hide Addressing.Planned, Addressing.UsableSegments, Addressing.MemberLists, Groups.InstanceIds, Addressing.Sound;
    Programs.PlanIsSound(s, LAB, plan, problems);
    Programs.OnHost(Addressing.UsableSegments(LAB), Addressing.MemberLists(s, LAB), plan.addresses, i.id, LAB.segments[n].name);
    LabMembers(s);
    var all := Groups.InstanceIds(s);
    Addressing.JoiningMember(s, all, LAB.segments[n], i.id);
    var k :| 0 <= k < |all| && all[k].id == i.id && Addressing.Joins(s, all[k], LAB.segments[n]);
    var j :| 0 <= j < |all| && all[j] == i;
    assert !(j < k) && !(k < j);
  }

  lemma LabPlanes()
    ensures Planes.Remarks(LAB.segments) == [] && Overlaps(LAB.segments, 3) == []
  {
    hide Overlaps, Planes.ManagementOf, Planes.AllIntruders;
    OneManagement();
    NobodyIntrudes();
    NoneOverlap();
  }

  lemma OneManagement()
    ensures Planes.ManagementOf(LAB.segments) == [SEGMENT_M]
  {
    LabSegments();
    assert Planes.ManagementOf([SEGMENT_X]) == [];
    assert Planes.ManagementOf([SEGMENT_X, SEGMENT_Y]) == [];
    assert Planes.ManagementOf(LAB.segments) == [] + [SEGMENT_M];
  }

  lemma NobodyIntrudes()
    ensures Planes.AllIntruders([SEGMENT_M], LAB.segments) == []
  {
    Planes.NoIntrudersAtAll([SEGMENT_M], LAB.segments);
  }

  lemma NoneOverlap()
    ensures Overlaps(LAB.segments, 3) == []
  {
    var segments := LAB.segments;
    assert segments[1..] == [SEGMENT_Y, SEGMENT_M] && segments[2..] == [SEGMENT_M] && segments[3..] == [];
    assert [SEGMENT_Y, SEGMENT_M][..1] == [SEGMENT_Y] && [SEGMENT_Y][..0] == [] && [SEGMENT_M][..0] == [];
    assert OverlapsWith(SEGMENT_X, [SEGMENT_Y]) == [];
    assert OverlapsWith(SEGMENT_X, segments[1..]) == [];
    assert OverlapsWith(SEGMENT_Y, segments[2..]) == [];
    assert OverlapsWith(SEGMENT_M, segments[3..]) == [];
    assert Overlaps(segments, 1) == [] && Overlaps(segments, 2) == [];
  }

  lemma LabData()
    ensures PlaneOf(LAB.segments, "x") == Some(Data) && PlaneOf(LAB.segments, "y") == Some(Data) && DataSegments(LAB) == DATA
  {
    LabSegments();
    assert PlaneOf([SEGMENT_X], "x") == Some(Data);
    assert PlaneOf([SEGMENT_X, SEGMENT_Y], "x") == Some(Data) && PlaneOf([SEGMENT_X, SEGMENT_Y], "y") == Some(Data);
    assert LAB.segments[0] == SEGMENT_X && LAB.segments[1] == SEGMENT_Y && LAB.segments[2] == SEGMENT_M;
  }

  // ----- without forwarders

  lemma SomebodyIn(ids: seq<string>)
    requires ids != []
    ensures exists f :: f in ids
  {
    assert ids[0] in ids;
  }

  lemma NoForwarders(s: Scenario)
    requires forall k :: 0 <= k < |s.kinds| ==> !s.kinds[k].forwards
    ensures Groups.Forwarders(s) == []
  {
    if Groups.Forwarders(s) != [] {
      SomebodyIn(Groups.Forwarders(s));
    }
  }

  /** Without forwarders a data segment leads only to itself. */
  lemma {:induction false} NowhereElse(net: Routing.Net, a: string, b: string, n: nat)
    requires net.forwarders == [] && Graph.Walk(Routing.EdgesOf(net), a, b, n)
    ensures a == b
  {
  }

  /** Nor has the route plan anything to do. */
  lemma NoRoutes(net: Routing.Net, i: string)
    requires Routing.WellFormed(net) && net.forwarders == []
    ensures Routing.Destinations(net, i) == {} && Routing.RoutesOf(net, i) == []
  {
    hide Routing.WellFormed, Routing.SegmentsOf, Routing.EdgesOf;
    forall a, b | Graph.Connected(Routing.EdgesOf(net), a, b)
      ensures a == b
    {
      var n: nat :| Graph.Walk(Routing.EdgesOf(net), a, b, n);
      NowhereElse(net, a, b, n);
    }
    assert Routing.Destinations(net, i) == {};
    assert SortedSeq({}) == [];
  }

  lemma {:induction false} NoRouteProblems(net: Routing.Net, ids: seq<string>)
    requires Routing.WellFormed(net) && net.forwarders == []
    ensures Routing.Problems(net, ids) == []
  {
    hide Routing.WellFormed, Routing.Destinations;
    if ids != [] {
      NoRouteProblems(net, ids[..|ids| - 1]);
      NoRoutes(net, ids[|ids| - 1]);
      assert SortedSeq({}) == [];
    }
  }

  // ----- when check 10 has nothing to say of attachments

  lemma {:induction false} NetworksAreClean(path: string, kind: string, networks: seq<string>)
    requires forall x :: x in networks ==> x in DATA
    ensures OfNetworks(LAB, path, kind, networks) == []
  {
    hide PlaneOf;
    if networks != [] {
      assert networks[|networks| - 1] in networks;
      NetworksAreClean(path, kind, networks[..|networks| - 1]);
      LabData();
    }
  }

  lemma {:induction false} AttachmentsAreClean(s: Scenario, path: string, attachments: OrderedMap<string, seq<string>>)
    requires forall e :: e in attachments ==> IsKind(s, e.0) && forall x :: x in e.1 ==> x in DATA
    ensures OfAttachments(s, LAB, path, attachments) == []
  {
    hide IsKind, OfNetworks;
    if attachments != [] {
      var last := attachments[|attachments| - 1];
      assert last in attachments;
      AttachmentsAreClean(s, path, attachments[..|attachments| - 1]);
      NetworksAreClean(path, last.0, last.1);
    }
  }

  lemma {:induction false} InstancesAreClean(s: Scenario, t: Topology, g: Group, instances: OrderedMap<string, int>)
    requires forall e :: e in instances ==> JoinsData(t, NetworksOf(g, e.0))
    ensures OfInstances(s, t, g, instances) == []
  {
    hide JoinsData, NetworksOf;
    if instances != [] {
      assert instances[|instances| - 1] in instances;
      InstancesAreClean(s, t, g, instances[..|instances| - 1]);
    }
  }

  /** One group, its kinds known and attached to the data segments. */
  lemma GroupIsAttached(s: Scenario)
    requires |s.groups| == 1
    requires forall e :: e in s.groups[0].attachments ==> IsKind(s, e.0) && forall x :: x in e.1 ==> x in DATA
    requires forall e :: e in s.groups[0].instances ==> JoinsData(LAB, NetworksOf(s.groups[0], e.0))
    ensures OfGroups(s, LAB, s.groups) == []
  {
    hide IsKind, JoinsData, NetworksOf;
    var g := s.groups[0];
    AttachmentsAreClean(s, g.path, g.attachments);
    InstancesAreClean(s, LAB, g, g.instances);
    assert s.groups[..0] == [];
  }

  lemma OneGroup(s: Scenario)
    requires |s.groups| == 1
    ensures Groups.InstanceIds(s) == Groups.OfGroup(s.groups[0], s.kinds)
  {
    assert s.groups[1..] == [];
    assert Groups.OfGroups([], s.kinds) == [];
  }

  /** One group with one wire. */
  lemma OneWireReaches(s: Scenario, net: Routing.Net, routes: Routes)
    requires |s.groups| == 1 && |s.groups[0].wiring| == 1
    requires WireReach(s, net, routes, s.groups[0].path, s.groups[0].wiring[0].0) == []
    ensures GroupsReach(s, net, routes, s.groups) == []
  {
    hide WireReach;
    var g := s.groups[0];
    assert s.groups[..0] == [] && g.wiring[..0] == [];
    assert WiresReach(s, net, routes, g.path, g.wiring) == [] + WireReach(s, net, routes, g.path, g.wiring[0].0);
  }

  lemma TargetsOfWire(s: Scenario, path: string, kind: string, tie: string, relation: Tie, wired: seq<string>)
    requires WireOf(s, path, kind, tie) == Some((relation, wired))
    ensures TargetsOf(s, path, kind, tie) == Some(Reached(Groups.InstanceIds(s), relation.targetKind, wired))
  {
    hide WireOf;
  }

  /** The segments' part of check 9 and the whole of check 10 on the planners' plans are silent. */
  ghost predicate PlansAreClean(s: Scenario, t: Topology, plan: AddressPlan) {
    && Groups.DistinctIds(s) && Addressing.Planned(s, t, plan, []) && Planes.Remarks(t.segments) == []
    && var net := Routing.NetOf(s, t, plan);
       Routing.WellFormed(net) && Findings(s, t, net, [], Routing.Planned(net), Routing.Problems(net, net.ids)) == []
  }

  /** On the topology above it takes few instances, no forwarders, and attachments and wires check 10 has nothing to say of. */
  lemma LabIsClean(s: Scenario, plan: AddressPlan)
    requires Addressing.Planned(s, LAB, plan, []) && Groups.DistinctIds(s)
    requires forall k :: 0 <= k < |s.kinds| ==> !s.kinds[k].forwards
    requires OfGroups(s, LAB, s.groups) == []
    requires Routing.WellFormed(Routing.NetOf(s, LAB, plan)) ==>
      GroupsReach(s, Routing.NetOf(s, LAB, plan), Routing.Planned(Routing.NetOf(s, LAB, plan)), s.groups) == []
    ensures PlansAreClean(s, LAB, plan)
    ensures var net := Routing.NetOf(s, LAB, plan);
            Routing.WellFormed(net) && net.data == DATA && forall i :: i in Routing.Planned(net) ==> Routing.Planned(net)[i] == []
  {
    hide Addressing.Planned, Groups.DistinctIds, OfGroups, GroupsReach, Routing.WellFormed, Overlaps, Planes.Remarks, Routing.Problems,
         Routing.RoutesOf, Groups.Forwarders;
    var net := Routing.NetOf(s, LAB, plan);
    Routing.NetIsWellFormed(s, LAB, plan);
    NoForwarders(s);
    NoRouteProblems(net, net.ids);
    LabPlanes();
    LabData();
    forall i | i in Routing.Planned(net)
      ensures Routing.Planned(net)[i] == []
    {
      NoRoutes(net, i);
    }
  }

  // ----- a kind with a dot in its name

  /** One group with a client and the server its ``single`` tie must reach, each on a data segment of its own. */
  function Dotted(kind: string): Scenario {
    Scenario([Kind(kind, [Tie("t", "c", Single)], false), Kind("c", [], false)], [DottedGroup(kind)])
  }

  function DottedGroup(kind: string): Group {
    Group("g", [(kind, 1), ("c", 1)], [(kind, ["x"]), ("c", ["y"])], [(WireKey(kind, "t"), ["g"])])
  }

  function Client(kind: string): Groups.Instance {
    Groups.Instance("g", kind, Groups.InstanceId("g", kind, 0))
  }

  const SERVER := Groups.Instance("g", "c", Groups.InstanceId("g", "c", 0))

  lemma DottedCounts(kind: string)
    requires '.' in kind
    ensures Groups.Count(DottedGroup(kind), kind) == 1 && Groups.Count(DottedGroup(kind), "c") == 1
    ensures Lookup(DottedGroup(kind).attachments, kind) == Some(["x"]) && Lookup(DottedGroup(kind).attachments, "c") == Some(["y"])
  {
    var g := DottedGroup(kind);
    assert DistinctKeys(g.instances) && DistinctKeys(g.attachments);
    LookupAt(g.instances, 0);
    LookupAt(g.instances, 1);
    LookupAt(g.attachments, 0);
    LookupAt(g.attachments, 1);
  }

  lemma DottedInstances(kind: string)
    requires '.' in kind
    ensures Groups.InstanceIds(Dotted(kind)) == [Client(kind), SERVER]
  {
    hide Groups.Count;
    var g, kinds := DottedGroup(kind), Dotted(kind).kinds;
    DottedCounts(kind);
    OneGroup(Dotted(kind));
    assert kinds[1..] == [kinds[1]] && kinds[1..][1..] == [];
    assert Groups.OfKind(g, kind) == [Client(kind)] && Groups.OfKind(g, "c") == [SERVER];
    assert Groups.OfGroup(g, kinds[1..]) == [SERVER] + [];
    assert Groups.OfGroup(g, kinds) == [Client(kind)] + [SERVER];
  }

  lemma DottedIds(kind: string)
    requires '.' in kind
    ensures Client(kind).id != SERVER.id && Groups.DistinctIds(Dotted(kind))
  {
    hide Groups.InstanceIds;
    DottedInstances(kind);
    var a, b := Client(kind).id, SERVER.id;
    assert a == "g/" + kind + "[" + Decimal(0) + "]" && b == "g/" + "c" + "[" + Decimal(0) + "]";
    assert a == b ==> kind == "c" by {
      assert a[2..2 + |kind|] == kind && |b| == 6;
      if |kind| == 1 {
        assert a[2] == kind[0] && b[2] == 'c' && kind == [kind[0]];
      }
    }
  }

  lemma DottedIsWired(kind: string)
    requires '.' in kind
    ensures WireOf(Dotted(kind), "g", kind, "t") == Some((Tie("t", "c", Single), ["g"]))
  {
    assert Lookup(DottedGroup(kind).wiring, WireKey(kind, "t")) == Some(["g"]);
  }

  lemma DottedTargets(kind: string)
    requires '.' in kind
    ensures TargetsOf(Dotted(kind), "g", kind, "t") == Some([SERVER.id])
  {
    hide Groups.InstanceIds, WireOf;
    DottedInstances(kind);
    DottedIsWired(kind);
    TargetsOfWire(Dotted(kind), "g", kind, "t", Tie("t", "c", Single), ["g"]);
    var all, wired := [Client(kind), SERVER], ["g"];
    assert all[..1] == [Client(kind)] && all[..1][..0] == [];
    assert Client(kind).kind != "c";
    assert Reached([], "c", wired) == [];
    assert Reached([Client(kind)], "c", wired) == [];
    assert Reached(all, "c", wired) == [] + [SERVER.id] == [SERVER.id];
    assert Reached(Groups.InstanceIds(Dotted(kind)), "c", wired) == [SERVER.id];
  }

  lemma DottedIsNamed(kind: string)
    requires '.' in kind
    ensures Named(Dotted(kind)) && AllTiesDistinct(Dotted(kind).kinds) && KnownTies(Dotted(kind).kinds)
    ensures HoldsKind(Dotted(kind), DottedGroup(kind), kind) && IsKind(Dotted(kind), kind) && IsKind(Dotted(kind), "c")
  {
    var s := Dotted(kind);
    assert s.kinds[0].name == kind && s.kinds[1].name == "c";
    assert DottedGroup(kind).instances[0] == (kind, 1);
  }

  /** Check 1 has nothing to say of it, in any order. */
  lemma DottedTies(kind: string, order: Order)
    requires '.' in kind && IsOrder(Dotted(kind), order)
    ensures TiesAreClean(Dotted(kind), order)
  {
    hide Named, KnownTies, AllTiesDistinct, KindDiagnostics, GroupDiagnostics, Expected, WireDiagnostics, HoldsKind, Groups.Count, IsKind,
         WireKey;
    var s, g, key := Dotted(kind), DottedGroup(kind), WireKey(kind, "t");
    DottedIsNamed(kind);
    NoneUnknownTarget(s, s.kinds);
    DottedExpects(kind, order);
    DottedCounts(kind);
    assert IsGroup(s, "g") by {
      assert s.groups[0].path == "g";
    }
    assert s.groups[1..] == [];
    assert Total([], "c", ["g"]) == 0;
    WireIsClean(s, g, order, key, ["g"]);
    CountsAreClean(s, g.path, g.instances);
    assert Has(g.wiring, key) by {
      assert g.wiring[0].0 == key;
    }
    GroupIsClean(s, g, order);
    GroupsAreClean(s, order, s.groups);
  }

  lemma DottedExpects(kind: string, order: Order)
    requires '.' in kind && IsOrder(Dotted(kind), order)
    ensures Expected(Dotted(kind), DottedGroup(kind), order) == map[WireKey(kind, "t") := Tie("t", "c", Single)]
  {
    hide Named, Expected, HoldsKind, WireKey;
    var s, g := Dotted(kind), DottedGroup(kind);
    DottedIsNamed(kind);
    IsKeyed(s, g, 0, 0);
    assert OrderOf(s, s.groups[0], order(s.groups[0]));
    forall key
      ensures key in Expected(s, g, order) <==> key == WireKey(kind, "t")
      ensures key in Expected(s, g, order) ==> Expected(s, g, order)[key] == Tie("t", "c", Single)
    {
      ExpectedIs(s, g, order, key);
    }
  }

  // ----- what the planners make of it

  lemma DottedJoins(kind: string)
    requires '.' in kind
    ensures Addressing.Joins(Dotted(kind), Client(kind), SEGMENT_X) && !Addressing.Joins(Dotted(kind), SERVER, SEGMENT_X)
    ensures !Addressing.Joins(Dotted(kind), Client(kind), SEGMENT_Y) && Addressing.Joins(Dotted(kind), SERVER, SEGMENT_Y)
  {
    var s := Dotted(kind);
    DottedCounts(kind);
    assert Addressing.AttachmentsOf(s.groups, "g") == DottedGroup(kind).attachments;
    assert "x" in ["x"] && "y" in ["y"] && "x" !in ["y"] && "y" !in ["x"];
  }

  lemma DottedAttachments(kind: string)
    requires '.' in kind
    ensures OfGroups(Dotted(kind), LAB, Dotted(kind).groups) == []
  {
    hide IsKind, PlaneOf, Groups.Count, Named, KnownTies, AllTiesDistinct;
    var s, g := Dotted(kind), DottedGroup(kind);
    DottedCounts(kind);
    DottedIsNamed(kind);
    LabData();
    assert NetworksOf(g, kind) == ["x"] && NetworksOf(g, "c") == ["y"];
    assert ["x"][0] == "x" && ["y"][0] == "y";
    assert JoinsData(LAB, ["x"]) && JoinsData(LAB, ["y"]);
    GroupIsAttached(s);
  }

  /** The wire's key is cut at its first dot, and no kind with a tie is called what stands before it. */
  lemma DottedReach(kind: string, net: Routing.Net, routes: Routes)
    requires '.' in kind
    ensures GroupsReach(Dotted(kind), net, routes, Dotted(kind).groups) == []
  {
    hide AllDead, Groups.InstanceIds, HeldBy, AtDot;
    var s, key := Dotted(kind), WireKey(kind, "t");
    Programs.BeforeDot(key);
    var (before, tie) := AtDot(key);
    assert before != kind;
    assert s.kinds[1..] == [s.kinds[1]] && s.kinds[1..][1..] == [];
    assert FindKind(s.kinds[1..], before) == if before == "c" then Some(s.kinds[1]) else None;
    assert FindKind(s.kinds, before) == FindKind(s.kinds[1..], before);
    assert FindTie([], tie) == None;
    assert TargetsOf(s, "g", before, tie) == None;
    OneWireReaches(s, net, routes);
  }

  /** Nobody is where the client can reach. */
  lemma DottedPeers(kind: string, plan: AddressPlan, routes: Routes)
    requires '.' in kind && Addressing.Planned(Dotted(kind), LAB, plan, [])
    requires forall i :: i in routes ==> routes[i] == []
    ensures Programs.PeersOf(Dotted(kind), Routing.NetOf(Dotted(kind), LAB, plan), routes, Client(kind), "t") == []
  {
    hide Addressing.Planned, TargetsOf, Groups.InstanceIds, Routing.SegmentsOf, Addressing.Joins, Groups.Forwarders, Groups.DistinctIds;
    var s, net := Dotted(kind), Routing.NetOf(Dotted(kind), LAB, plan);
    DottedTargets(kind);
    LabData();
    var mine := Routing.SegmentsOf(net, Client(kind).id);
    Programs.AmongIs(net, mine, SERVER.id);
    forall x | x in mine
      ensures Routing.AddressOn(net, SERVER.id, x).None?
    {
      Routing.Interface(net, Client(kind).id, x);
      DottedAddresses(kind, plan);
    }
    var reached := [SERVER.id];
    assert reached[..0] == [];
    assert Programs.RoutesFrom(routes, Client(kind).id) == [];
    assert Programs.PeerAddress(net, routes, Client(kind).id, SERVER.id) == None;
    assert Programs.PeersAmong(net, routes, Client(kind).id, reached) == [];
  }

  lemma DottedAddresses(kind: string, plan: AddressPlan)
    requires '.' in kind && Addressing.Planned(Dotted(kind), LAB, plan, [])
    ensures Addressing.On(plan.addresses, Client(kind).id, "y").None? && Addressing.On(plan.addresses, SERVER.id, "x").None?
  {
    hide Addressing.Planned, Groups.InstanceIds, Addressing.Joins, Groups.DistinctIds;
    var s := Dotted(kind);
    DottedInstances(kind);
    DottedIds(kind);
    DottedJoins(kind);
    if Addressing.On(plan.addresses, Client(kind).id, "y").Some? {
      OnlyWhereJoined(s, plan, [], Client(kind), 1);
    }
    if Addressing.On(plan.addresses, SERVER.id, "x").Some? {
      OnlyWhereJoined(s, plan, [], SERVER, 0);
    }
  }

  /**
   * A dot in a kind's name hides its wires from check 10: on the planners' own plans no check says
   * anything, and the client's ``single`` tie has no peer.
   */
  lemma DottedKindIsUnchecked(kind: string, order: Order, plan: AddressPlan, problems: seq<Addressing.Problem>)
    requires '.' in kind && IsOrder(Dotted(kind), order) && Addressing.Planned(Dotted(kind), LAB, plan, problems)
    ensures var s := Dotted(kind);
            && TiesAreClean(s, order) && problems == [] && PlansAreClean(s, LAB, plan) && Client(kind) in Groups.InstanceIds(s)
            && TargetsOf(s, "g", kind, "t") == Some([SERVER.id])
            && var net := Routing.NetOf(s, LAB, plan);
               Programs.PeersOf(s, net, Routing.Planned(net), Client(kind), "t") == []
  {
    hide Addressing.Planned, TiesAreClean, PlansAreClean, OfGroups, GroupsReach, Groups.InstanceIds, Groups.DistinctIds, TargetsOf,
         Routing.WellFormed, Routing.NetOf, Routing.Planned, Programs.PeersOf, IsOrder;
    var s, net := Dotted(kind), Routing.NetOf(Dotted(kind), LAB, plan);
    DottedInstances(kind);
    DottedIds(kind);
    DottedTies(kind, order);
    LabPlanIsClean(s, plan, problems);
    DottedAttachments(kind);
    forall net: Routing.Net, routes: Routes
      ensures GroupsReach(s, net, routes, s.groups) == []
    {
      DottedReach(kind, net, routes);
    }
    LabIsClean(s, plan);
    DottedTargets(kind);
    DottedPeers(kind, plan, Routing.Planned(net));
  }

  /** Run: no finding, and the client's program has no peer. */
  method DottedPasses(kind: string, ghost order: Order)
    returns (found: seq<Finding>, remarks: seq<Planes.Remark>, peers: seq<(string, Address)>)
    requires '.' in kind && IsOrder(Dotted(kind), order)
    ensures TiesAreClean(Dotted(kind), order) && found == [] && remarks == [] && peers == []
    ensures TargetsOf(Dotted(kind), "g", kind, "t") == Some([SERVER.id])
    ensures FindTie(Dotted(kind).kinds[0].ties, "t").value.multiplicity == Single
  {
    hide Addressing.Planned, TiesAreClean, Findings, Programs.PeersOf, Groups.InstanceIds, Groups.DistinctIds, TargetsOf, IsOrder,
         Planes.Remarks, Routing.WellFormed, Routing.NetOf, Routing.Planned, Routing.Problems;
    DottedIds(kind);
    var plan, problems, routes, routeProblems;
    plan, problems, routes, routeProblems, found := Check(Dotted(kind), LAB);
    remarks := Planes.CheckPlanes(LAB.segments);
    DottedKindIsUnchecked(kind, order, plan, problems);
    peers := Programs.BuildPeers(Dotted(kind), Routing.NetOf(Dotted(kind), LAB, plan), routes, Client(kind), "t");
  }

  // ----- exactly the kinds without a dot

  /** The plan of such a scenario: every host gets the first address after the gateway's that is free. */
  function DottedPlan(kind: string): AddressPlan {
    AddressPlan(map[Client(kind).id := [("x", PREFIX_X.base + 2), ("m", PREFIX_M.base + 2)],
                    SERVER.id := [("y", PREFIX_Y.base + 2), ("m", PREFIX_M.base + 3)]],
                map["x" := PREFIX_X.base + 1, "y" := PREFIX_Y.base + 1, "m" := PREFIX_M.base + 1])
  }

  lemma DottedOn(kind: string, i: string, x: string)
    requires '.' in kind
    ensures Addressing.On(DottedPlan(kind).addresses, i, x) ==
      if i == Client(kind).id then (if x == "x" then Some(PREFIX_X.base + 2) else if x == "m" then Some(PREFIX_M.base + 2) else None)
      else if i == SERVER.id then (if x == "y" then Some(PREFIX_Y.base + 2) else if x == "m" then Some(PREFIX_M.base + 3) else None)
      else None
  {
    DottedIds(kind);
    LookupOfTwo(("x", PREFIX_X.base + 2), ("m", PREFIX_M.base + 2), x);
    LookupOfTwo(("y", PREFIX_Y.base + 2), ("m", PREFIX_M.base + 3), x);
  }

  lemma LookupOfTwo(a: (string, Address), b: (string, Address), x: string)
    ensures Lookup([a, b], x) == if a.0 == x then Some(a.1) else if b.0 == x then Some(b.1) else None
  {
    assert [a, b][1..] == [b] && [b][1..] == [];
    assert Lookup<string, Address>([], x) == None;
    assert Lookup([b], x) == if b.0 == x then Some(b.1) else None;
  }

  lemma DottedMembers(kind: string)
    requires '.' in kind
    ensures var s := Dotted(kind);
            && Addressing.Members(s, SEGMENT_X) == [Client(kind).id] && Addressing.Members(s, SEGMENT_Y) == [SERVER.id]
            && Addressing.Members(s, SEGMENT_M) == [Client(kind).id, SERVER.id]
  {
    hide Groups.InstanceIds;
    var s, all := Dotted(kind), [Client(kind), SERVER];
    DottedInstances(kind);
    assert all[1..] == [SERVER] && [SERVER][1..] == [];
    DottedJoins(kind);
    assert Addressing.Joins(s, Client(kind), SEGMENT_M) && Addressing.Joins(s, SERVER, SEGMENT_M);
    EachJoins(s, Client(kind), SERVER, SEGMENT_X);
    EachJoins(s, Client(kind), SERVER, SEGMENT_Y);
    EachJoins(s, Client(kind), SERVER, SEGMENT_M);
  }

  lemma EachJoins(s: Scenario, a: Groups.Instance, b: Groups.Instance, seg: Segment)
    ensures Addressing.Joining(s, [a, b], seg) ==
      (if Addressing.Joins(s, a, seg) then [a.id] else []) + (if Addressing.Joins(s, b, seg) then [b.id] else [])
  {
    hide Addressing.Joins;
    assert [a, b][1..] == [b] && [b][1..] == [];
    assert Addressing.Joining(s, [], seg) == [];
    assert Addressing.Joining(s, [b], seg) == (if Addressing.Joins(s, b, seg) then [b.id] else []) + [];
  }

  lemma DottedSound(kind: string)
    requires '.' in kind
    ensures Addressing.Sound(Addressing.UsableSegments(LAB), Addressing.MemberLists(Dotted(kind), LAB), DottedPlan(kind).addresses)
  {
    hide Addressing.UsableSegments, Addressing.MemberLists, Addressing.Members, Addressing.RoomProblems, Addressing.On, Client;
    var usable, members, held := Addressing.UsableSegments(LAB), Addressing.MemberLists(Dotted(kind), LAB), DottedPlan(kind).addresses;
    LabUsable();
    LabMembers(Dotted(kind));
    DottedMembers(kind);
    DottedIds(kind);
    assert DistinctKeys(usable);
    LookupAt(usable, 0);
    LookupAt(usable, 1);
    LookupAt(usable, 2);
    forall i, x
      ensures Addressing.On(held, i, x).Some? ==> Addressing.Legit(usable, members, i, x, Addressing.On(held, i, x).value)
    {
      DottedOn(kind, i, x);
    }
    forall i, j, x | i != j && Addressing.On(held, i, x).Some?
      ensures Addressing.On(held, i, x) != Addressing.On(held, j, x)
    {
      DottedOn(kind, i, x);
      DottedOn(kind, j, x);
    }
  }

  lemma DottedIsComplete(kind: string)
    requires '.' in kind
    ensures Addressing.Complete(Dotted(kind), LAB, DottedPlan(kind).addresses)
  {
    hide Addressing.Members, Addressing.On, Client;
    DottedMembers(kind);
    DottedIds(kind);
    forall k, i | 0 <= k < |LAB.segments| && i in Addressing.Members(Dotted(kind), LAB.segments[k])
      ensures Addressing.On(DottedPlan(kind).addresses, i, LAB.segments[k].name).Some?
    {
      DottedOn(kind, i, LAB.segments[k].name);
    }
  }

  lemma DottedIsPlanned(kind: string)
    requires '.' in kind
    ensures Addressing.Planned(Dotted(kind), LAB, DottedPlan(kind), [])
  {
    hide Addressing.Sound, Addressing.UsableSegments, Addressing.MemberLists, Addressing.SurveyProblems, Addressing.RoomProblems,
         Addressing.Prefixes, Addressing.FirstDefinitions, Addressing.Complete, Addressing.Members, Groups.InstanceIds, Client;
    var usable := Addressing.UsableSegments(LAB);
    DottedSound(kind);
    DottedIsComplete(kind);
    DottedMembers(kind);
    DottedInstances(kind);
    LabDefinitions();
    LabUsable();
    LabMembers(Dotted(kind));
    assert Addressing.Ids(Dotted(kind)) == {Client(kind).id, SERVER.id};
    assert usable[0].0 == "x" && usable[1].0 == "y" && usable[2].0 == "m";
  }

  /** Whatever the scenario, the topology and the order, clean checks give an instance of this kind all its targets. */
  ghost predicate KindIsTotal(kind: string) {
    forall s: Scenario, t: Topology, plan: AddressPlan, order: Order ::
      TiesAreClean(s, order) && PlansAreClean(s, t, plan) ==> TotalFor(s, t, plan, kind)
  }

  ghost predicate TotalFor(s: Scenario, t: Topology, plan: AddressPlan, kind: string)
    requires Routing.WellFormed(Routing.NetOf(s, t, plan))
  {
    var net := Routing.NetOf(s, t, plan);
    forall i, tie, targets ::
      i in Groups.InstanceIds(s) && i.kind == kind && TargetsOf(s, i.group, kind, tie) == Some(targets) ==>
        Programs.AllPeers(net, Routing.Planned(net), i.id, targets, Programs.PeersOf(s, net, Routing.Planned(net), i, tie))
  }

  /** Clean checks give every instance of a kind all the targets of every tie exactly when there is no dot in the kind's name. */
  lemma TotalExactlyWithoutDot(kind: string)
    ensures KindIsTotal(kind) <==> '.' !in kind
  {
    hide TotalFor, TiesAreClean, Routing.WellFormed, Routing.NetOf, Findings, Addressing.Planned, Planes.Remarks, Groups.DistinctIds;
    if '.' in kind {
      DottedIsNotTotal(kind);
    } else {
      forall s: Scenario, t: Topology, plan: AddressPlan, order: Order | TiesAreClean(s, order) && PlansAreClean(s, t, plan)
        ensures TotalFor(s, t, plan, kind)
      {
        PlainIsTotal(s, t, plan, order, kind);
      }
    }
  }

  lemma DottedIsNotTotal(kind: string)
    requires '.' in kind
    ensures !KindIsTotal(kind)
  {
    hide TiesAreClean, Findings, Planes.Remarks, Groups.InstanceIds, Groups.DistinctIds, Addressing.Planned, OrderOf, TargetsOf,
         Programs.PeersOf, Routing.NetOf, Routing.Planned, Routing.WellFormed;
    var s, plan := Dotted(kind), DottedPlan(kind);
    var order: Order := (g: Group) => SortedNames(s, g);
    DottedIsPlanned(kind);
    DottedKindIsUnchecked(kind, order, plan, []);
    var net := Routing.NetOf(s, LAB, plan);
    assert Client(kind).kind == kind && Client(kind).group == "g";
    assert !Programs.AllPeers(net, Routing.Planned(net), Client(kind).id, [SERVER.id], []);
    assert !TotalFor(s, LAB, plan, kind);
  }

  lemma PlainIsTotal(s: Scenario, t: Topology, plan: AddressPlan, order: Order, kind: string)
    requires TiesAreClean(s, order) && PlansAreClean(s, t, plan) && '.' !in kind
    ensures TotalFor(s, t, plan, kind)
  {
    hide TiesAreClean, Addressing.Planned, Groups.InstanceIds, Groups.DistinctIds, TargetsOf, Programs.PeersOf, Routing.NetOf,
         Routing.Planned, Routing.WellFormed, Routing.Problems, Programs.AllPeers, Planes.Remarks, Findings, WireKey, FindTie;
    var net := Routing.NetOf(s, t, plan);
    Programs.FindingsClean(s, t, net, [], Routing.Planned(net), Routing.Problems(net, net.ids));
    Programs.PlannedIsTotal(s, order, t, plan, []);
    forall i, tie, targets | i in Groups.InstanceIds(s) && i.kind == kind && TargetsOf(s, i.group, kind, tie) == Some(targets)
      ensures Programs.AllPeers(net, Routing.Planned(net), i.id, targets, Programs.PeersOf(s, net, Routing.Planned(net), i, tie))
    {
      var k, n := IsATie(s, i, tie, targets);
      var relation := FindTie(s.kinds[k].ties, tie).value;
      assert Programs.IsWire(s, i, k, n, WireKey(i.kind, tie), relation, targets);
      assert Programs.Covered(i, targets);
    }
  }

  lemma IsATie(s: Scenario, i: Groups.Instance, tie: string, targets: seq<string>) returns (k: nat, n: nat)
    requires TargetsOf(s, i.group, i.kind, tie) == Some(targets)
    ensures k < |s.kinds| && s.kinds[k].name == i.kind && n < |s.kinds[k].ties| && s.kinds[k].ties[n].name == tie
    ensures FindTie(s.kinds[k].ties, tie).Some? && FindTie(s.kinds[k].ties, tie).value.name == tie
  {
    k := KindAt(s.kinds, i.kind);
    n := TieAt(s.kinds[k].ties, tie);
  }

  lemma {:induction false} KindAt(kinds: seq<Kind>, name: string) returns (k: nat)
    requires FindKind(kinds, name).Some?
    ensures k < |kinds| && kinds[k].name == name && FindKind(kinds, name) == Some(kinds[k])
  {
    if kinds[0].name == name {
      k := 0;
    } else {
      k := KindAt(kinds[1..], name);
      k := k + 1;
    }
  }

  lemma {:induction false} TieAt(ties: seq<Tie>, name: string) returns (t: nat)
    requires FindTie(ties, name).Some?
    ensures t < |ties| && ties[t].name == name && FindTie(ties, name) == Some(ties[t])
  {
    if ties[0].name == name {
      t := 0;
    } else {
      t := TieAt(ties[1..], name);
      t := t + 1;
    }
  }

  // ----- two held kinds whose ties share a wire key

  const ONE_SERVER := Tie("b.t", "c", Single)
  const SERVERS := Tie("t", "c", Multiple)

  /** Kind ``a``'s tie ``b.t`` and kind ``a.b``'s tie ``t`` are wired under one key, to two servers. */
  const SHARED := Scenario([Kind("a", [ONE_SERVER], false), Kind("a.b", [SERVERS], false), Kind("c", [], false)], [SHARED_GROUP])

  const SHARED_GROUP := Group("g", [("a", 1), ("a.b", 1), ("c", 2)], [("a", ["x"]), ("a.b", ["x"]), ("c", ["x"])], [(SHARED_KEY, ["g"])])

  const SHARED_KEY := "a.b.t"

  const ASKER := Groups.Instance("g", "a", Groups.InstanceId("g", "a", 0))
  const OTHER := Groups.Instance("g", "a.b", Groups.InstanceId("g", "a.b", 0))
  const SERVER_1 := Groups.Instance("g", "c", Groups.InstanceId("g", "c", 1))

  /** The held kinds as they may come out of their set: the tie counted is the last one's. */
  const ONE_LAST := ["c", "a.b", "a"]
  const MANY_LAST := ["c", "a", "a.b"]

  function Always(names: seq<string>): Order {
    (g: Group) => names
  }

  lemma SharedCounts()
    ensures Groups.Count(SHARED_GROUP, "a") == 1 && Groups.Count(SHARED_GROUP, "a.b") == 1 && Groups.Count(SHARED_GROUP, "c") == 2
    ensures NetworksOf(SHARED_GROUP, "a") == ["x"] && NetworksOf(SHARED_GROUP, "a.b") == ["x"] && NetworksOf(SHARED_GROUP, "c") == ["x"]
  {
    var g := SHARED_GROUP;
    assert DistinctKeys(g.instances) && DistinctKeys(g.attachments);
    LookupAt(g.instances, 0);
    LookupAt(g.instances, 1);
    LookupAt(g.instances, 2);
    LookupAt(g.attachments, 0);
    LookupAt(g.attachments, 1);
    LookupAt(g.attachments, 2);
  }

  lemma SharedOfKinds()
    ensures Groups.OfKind(SHARED_GROUP, "a") == [ASKER] && Groups.OfKind(SHARED_GROUP, "a.b") == [OTHER]
    ensures Groups.OfKind(SHARED_GROUP, "c") == [SERVER, SERVER_1]
  {
    hide Groups.Count;
    SharedCounts();
  }

  lemma SharedInstances()
    ensures Groups.InstanceIds(SHARED) == [ASKER, OTHER, SERVER, SERVER_1]
  {
    hide Groups.OfKind, Groups.InstanceIds;
    var g, kinds := SHARED_GROUP, SHARED.kinds;
    SharedOfKinds();
    OneGroup(SHARED);
    assert kinds[1..] == [kinds[1], kinds[2]] && [kinds[1], kinds[2]][1..] == [kinds[2]] && [kinds[2]][1..] == [];
    assert Groups.OfGroup(g, [kinds[2]]) == [SERVER, SERVER_1] + [];
    assert Groups.OfGroup(g, [kinds[1], kinds[2]]) == [OTHER] + [SERVER, SERVER_1];
    assert Groups.OfGroup(g, kinds) == [ASKER] + [OTHER, SERVER, SERVER_1];
  }

  lemma SharedIds()
    ensures Groups.DistinctIds(SHARED)
  {
    hide Groups.InstanceIds;
    SharedInstances();
    var a, b, c, d := ASKER.id, OTHER.id, SERVER.id, SERVER_1.id;
    assert a[2] == 'a' && a[3] == '[' && b[2] == 'a' && b[3] == '.' && c[2] == 'c' && d[2] == 'c';
    assert c == "g/c[" + Decimal(0) + "]" && d == "g/c[" + Decimal(1) + "]";
    assert c[4] == '0' && d[4] == '1';
  }

  lemma SharedTargets()
    ensures TargetsOf(SHARED, "g", "a", "b.t") == Some([SERVER.id, SERVER_1.id])
  {
    hide Groups.InstanceIds, WireOf;
    SharedInstances();
    SharedIsWired();
    TargetsOfWire(SHARED, "g", "a", "b.t", ONE_SERVER, ["g"]);
    var all, wired := [ASKER, OTHER, SERVER, SERVER_1], ["g"];
    assert all[..3] == [ASKER, OTHER, SERVER] && all[..3][..2] == [ASKER, OTHER] && [ASKER, OTHER][..1] == [ASKER] && [ASKER][..0] == [];
    assert Reached([ASKER], "c", wired) == [];
    assert Reached([ASKER, OTHER], "c", wired) == [];
    assert Reached([ASKER, OTHER, SERVER], "c", wired) == [] + [SERVER.id];
    assert Reached(all, "c", wired) == [SERVER.id] + [SERVER_1.id] == [SERVER.id, SERVER_1.id];
    assert Reached(Groups.InstanceIds(SHARED), "c", wired) == [SERVER.id, SERVER_1.id];
  }

  lemma SharedIsWired()
    ensures WireOf(SHARED, "g", "a", "b.t") == Some((ONE_SERVER, ["g"]))
  {
    assert WireKey("a", "b.t") == SHARED_KEY;
    assert Lookup(SHARED_GROUP.wiring, SHARED_KEY) == Some(["g"]);
    assert FindKind(SHARED.kinds, "a") == Some(SHARED.kinds[0]);
    assert FindTie(SHARED.kinds[0].ties, "b.t") == Some(ONE_SERVER);
  }

  lemma SharedIsNamed()
    ensures Named(SHARED) && KnownTies(SHARED.kinds) && AllTiesDistinct(SHARED.kinds)
    ensures IsKind(SHARED, "a") && IsKind(SHARED, "a.b") && IsKind(SHARED, "c")
    ensures forall name :: HoldsKind(SHARED, SHARED_GROUP, name) <==> name == "a" || name == "a.b" || name == "c"
  {
    var s, g := SHARED, SHARED_GROUP;
    assert s.kinds[0].name == "a" && s.kinds[1].name == "a.b" && s.kinds[2].name == "c";
    assert g.instances[0] == ("a", 1) && g.instances[1] == ("a.b", 1) && g.instances[2] == ("c", 2);
  }

  /** One key, under which the last kind's tie stands. */
  lemma SharedExpects(one: bool)
    ensures var names := if one then ONE_LAST else MANY_LAST;
            && IsOrder(SHARED, Always(names))
            && Expected(SHARED, SHARED_GROUP, Always(names)) == map[SHARED_KEY := if one then ONE_SERVER else SERVERS]
  {
    hide Named, AllTiesDistinct, HoldsKind, ExpectedOf, WireKey;
    var s, g, names, k := SHARED, SHARED_GROUP, if one then ONE_LAST else MANY_LAST, if one then 0 else 1;
    var order := Always(names);
    SharedIsNamed();
    assert OrderOf(s, g, names) by {
      assert names[0] == "c" && (forall name :: name in names <==> name == "a" || name == "a.b" || name == "c");
    }
    SharedKey();
    assert names == names[..2] + [s.kinds[k].name];
    LastAmongShared(names[..2], k);
    forall key
      ensures key in Expected(s, g, order) <==> key == SHARED_KEY
      ensures key in Expected(s, g, order) ==> Expected(s, g, order)[key] == if one then ONE_SERVER else SERVERS
    {
      ExpectedIs(s, g, order, key);
    }
  }

  lemma SharedKey()
    ensures WireKey("a", "b.t") == SHARED_KEY && WireKey("a.b", "t") == SHARED_KEY
  {
  }

  lemma LastAmongShared(before: seq<string>, k: nat)
    requires k < 2
    ensures var expected := ExpectedOf(SHARED.kinds, before + [SHARED.kinds[k].name]);
            SHARED_KEY in expected && expected[SHARED_KEY] == SHARED.kinds[k].ties[0]
  {
    hide ExpectedOf, Named;
    SharedIsNamed();
    NamesApart(SHARED);
    SharedKey();
    LastIsCounted(SHARED.kinds, before, k, 0);
  }

  lemma SharedTotal()
    ensures Total(SHARED.groups, "c", ["g"]) == 2 && IsGroup(SHARED, "g")
  {
    hide Groups.Count;
    SharedCounts();
    assert SHARED.groups[1..] == [] && SHARED.groups[0].path == "g";
    assert Total([], "c", ["g"]) == 0;
  }

  /** Check 1 has nothing to say of it when the ``multiple`` tie is counted... */
  lemma SharedTies()
    ensures TiesAreClean(SHARED, Always(MANY_LAST))
  {
    hide Named, KnownTies, AllTiesDistinct, KindDiagnostics, GroupDiagnostics, Expected, WireDiagnostics, IsKind, IsGroup, Total, OrderOf;
    var s, g := SHARED, SHARED_GROUP;
    var order := Always(MANY_LAST);
    SharedIsNamed();
    SharedExpects(false);
    SharedTotal();
    NoneUnknownTarget(s, s.kinds);
    WireIsClean(s, g, order, SHARED_KEY, ["g"]);
    SharedHas();
    GroupIsClean(s, g, order);
    GroupsAreClean(s, order, s.groups);
  }

  lemma SharedHas()
    ensures Has(SHARED_GROUP.wiring, SHARED_KEY) && CountDiagnostics(SHARED, "g", SHARED_GROUP.instances) == []
  {
    assert SHARED_GROUP.wiring[0].0 == SHARED_KEY;
    SharedIsNamed();
    CountsAreClean(SHARED, "g", SHARED_GROUP.instances);
  }

  /** ...and reports the ``single`` one when that is. */
  lemma SharedTiesReported()
    ensures IsOrder(SHARED, Always(ONE_LAST))
    ensures CheckTies(SHARED, Always(ONE_LAST)) == [NotExactlyOne("g", SHARED_KEY, 2)]
  {
    hide Named, KnownTies, AllTiesDistinct, KindDiagnostics, Expected, IsKind, IsGroup, Total, OrderOf, CountDiagnostics;
    var s, g, found := SHARED, SHARED_GROUP, [NotExactlyOne("g", SHARED_KEY, 2)];
    var order := Always(ONE_LAST);
    SharedIsNamed();
    SharedExpects(true);
    SharedTotal();
    SharedHas();
    NoneUnknownTarget(s, s.kinds);
    NoneUnknown(s, "g", SHARED_KEY, ["g"]);
    assert WireDiagnostics(s, g, order, SHARED_KEY, ["g"]) == found;
    assert g.wiring[1..] == [] && s.groups[1..] == [];
    assert WiresDiagnostics(s, g, order, []) == [];
    assert WiresDiagnostics(s, g, order, g.wiring) == found + [];
    assert g.wiring[0] in g.wiring;
    assert Expected(s, g, order).Keys - (set e | e in g.wiring :: e.0) == {};
    assert SortedSeq({}) == [];
    assert GroupDiagnostics(s, g, order) == [] + [] + found;
    assert GroupsDiagnostics(s, order, []) == [];
    assert GroupsDiagnostics(s, order, s.groups) == found + [];
  }

  lemma SharedAttachments()
    ensures OfGroups(SHARED, LAB, SHARED.groups) == []
  {
    hide IsKind, PlaneOf, NetworksOf, Named, KnownTies, AllTiesDistinct;
    SharedCounts();
    SharedIsNamed();
    LabData();
    assert ["x"][0] == "x";
    assert JoinsData(LAB, ["x"]);
    GroupIsAttached(SHARED);
  }

  /** Everyone is on the first segment, so anyone reaches anyone. */
  lemma SharedReachable(plan: AddressPlan, routes: Routes, i: Groups.Instance, j: Groups.Instance)
    requires Addressing.Planned(SHARED, LAB, plan, []) && i in Groups.InstanceIds(SHARED) && j in Groups.InstanceIds(SHARED)
    ensures Routing.Reachable(Routing.NetOf(SHARED, LAB, plan), routes, i.id, j.id)
  {
    hide Addressing.Planned, Groups.InstanceIds, Groups.Forwarders, Routing.SegmentsOf;
    SharedIsOnX(plan, i);
    SharedIsOnX(plan, j);
  }

  lemma SharedIsOnX(plan: AddressPlan, i: Groups.Instance)
    requires Addressing.Planned(SHARED, LAB, plan, []) && i in Groups.InstanceIds(SHARED)
    ensures "x" in Routing.SegmentsOf(Routing.NetOf(SHARED, LAB, plan), i.id)
  {
    hide Addressing.Planned, Groups.InstanceIds, Groups.Forwarders, Routing.SegmentsOf, NetworksOf;
    var s, net, all := SHARED, Routing.NetOf(SHARED, LAB, plan), Groups.InstanceIds(SHARED);
    LabData();
    Programs.PlanIsComplete(s, LAB, plan);
    assert Addressing.Joins(s, i, SEGMENT_X) by {
      SharedJoins(i);
    }
    Addressing.JoiningMember(s, all, SEGMENT_X, i.id);
    var k :| 0 <= k < |all| && all[k] == i;
    assert LAB.segments[0] == SEGMENT_X;
    assert Addressing.On(plan.addresses, i.id, "x").Some?;
    Routing.Interface(net, i.id, "x");
  }

  lemma SharedJoins(i: Groups.Instance)
    requires i in Groups.InstanceIds(SHARED)
    ensures Addressing.Joins(SHARED, i, SEGMENT_X)
  {
    hide Groups.InstanceIds, Groups.Count, Groups.InstanceId;
    SharedInstances();
    SharedCounts();
    assert SHARED.groups[0] == SHARED_GROUP;
    assert Addressing.AttachmentsOf(SHARED.groups, "g") == SHARED_GROUP.attachments;
    assert "x" in ["x"];
  }

  lemma SharedReach(plan: AddressPlan, routes: Routes)
    requires Addressing.Planned(SHARED, LAB, plan, [])
    ensures GroupsReach(SHARED, Routing.NetOf(SHARED, LAB, plan), routes, SHARED.groups) == []
  {
    hide AllDead, Groups.InstanceIds, TargetsOf, AtDot, Routing.Reachable, Routing.NetOf, Addressing.Planned;
    var s, net, all := SHARED, Routing.NetOf(SHARED, LAB, plan), [ASKER, OTHER, SERVER, SERVER_1];
    SharedKey();
    AtDotOfKey("a", "b.t");
    SharedInstances();
    SharedTargets();
    assert all[..3] == [ASKER, OTHER, SERVER] && all[..3][..2] == [ASKER, OTHER] && [ASKER, OTHER][..1] == [ASKER] && [ASKER][..0] == [];
    assert HeldBy([ASKER], "g", "a") == [] + [ASKER.id];
    assert HeldBy([ASKER, OTHER], "g", "a") == [ASKER.id] + [];
    assert HeldBy([ASKER, OTHER, SERVER], "g", "a") == [ASKER.id] + [];
    assert HeldBy(all, "g", "a") == [ASKER.id] + [] == [ASKER.id];
    assert HeldBy(Groups.InstanceIds(s), "g", "a") == [ASKER.id];
    assert ASKER in all && SERVER in all && SERVER_1 in all;
    SharedReachable(plan, routes, ASKER, SERVER);
    SharedReachable(plan, routes, ASKER, SERVER_1);
    Programs.NoDeadAmong(net, routes, [ASKER.id], [SERVER.id, SERVER_1.id]);
    assert WireReach(s, net, routes, "g", SHARED_KEY) == [];
    OneWireReaches(s, net, routes);
  }

  /** Whatever plan the planners give, no check says anything when the other tie is counted, and the ``single`` tie has two peers. */
  lemma SharedKeyIsUnchecked(plan: AddressPlan, problems: seq<Addressing.Problem>)
    requires Addressing.Planned(SHARED, LAB, plan, problems)
    ensures var net := Routing.NetOf(SHARED, LAB, plan);
            && problems == [] && PlansAreClean(SHARED, LAB, plan) && ASKER in Groups.InstanceIds(SHARED)
            && var peers := Programs.PeersOf(SHARED, net, Routing.Planned(net), ASKER, "b.t");
               Programs.AllPeers(net, Routing.Planned(net), ASKER.id, [SERVER.id, SERVER_1.id], peers) && |peers| == 2
  {
    hide Addressing.Planned, PlansAreClean, OfGroups, GroupsReach, Groups.InstanceIds, Groups.DistinctIds, TargetsOf, TiesAreClean,
         Routing.WellFormed, Routing.NetOf, Routing.Planned, Programs.PeersOf, Programs.AllPeers;
    var s, net := SHARED, Routing.NetOf(SHARED, LAB, plan);
    SharedInstances();
    SharedIds();
    SharedTies();
    LabPlanIsClean(s, plan, problems);
    SharedAttachments();
    forall routes: Routes
      ensures GroupsReach(s, net, routes, s.groups) == []
    {
      SharedReach(plan, routes);
    }
    LabIsClean(s, plan);
    PlainIsTotal(s, LAB, plan, Always(MANY_LAST), "a");
    SharedTargets();
    var peers := Programs.PeersOf(s, net, Routing.Planned(net), ASKER, "b.t");
    assert ASKER.kind == "a" && ASKER.group == "g";
    assert Programs.AllPeers(net, Routing.Planned(net), ASKER.id, [SERVER.id, SERVER_1.id], peers);
    Programs.SameLength(net, Routing.Planned(net), ASKER.id, [SERVER.id, SERVER_1.id], peers);
  }

  /**
   * Run: no finding when the ``multiple`` tie is counted, one when the ``single`` tie is, and programs
   * in which the ``single`` tie has two peers. Check 11 has nothing to say of it: no name is used twice.
   */
  method SharedPasses() returns (found: seq<Finding>, remarks: seq<Planes.Remark>, peers: seq<(string, Address)>)
    ensures TiesAreClean(SHARED, Always(MANY_LAST)) && found == [] && remarks == []
    ensures IsOrder(SHARED, Always(ONE_LAST)) && CheckTies(SHARED, Always(ONE_LAST)) == [NotExactlyOne("g", SHARED_KEY, 2)]
    ensures FindTie(SHARED.kinds[0].ties, "b.t") == Some(ONE_SERVER) && |peers| == 2 && !Allows(ONE_SERVER.multiplicity, |peers|)
    ensures AllTiesDistinct(SHARED.kinds)
  {
    hide Addressing.Planned, TiesAreClean, CheckTies, Findings, Programs.PeersOf, Programs.AllPeers, Groups.InstanceIds,
         Groups.DistinctIds, IsOrder, Planes.Remarks, Routing.WellFormed, Routing.NetOf, Routing.Planned, Routing.Problems;
    SharedIds();
    SharedTies();
    SharedTiesReported();
    SharedIsNamed();
    var plan, problems, routes, routeProblems;
    plan, problems, routes, routeProblems, found := Check(SHARED, LAB);
    remarks := Planes.CheckPlanes(LAB.segments);
    SharedKeyIsUnchecked(plan, problems);
    peers := Programs.BuildPeers(SHARED, Routing.NetOf(SHARED, LAB, plan), routes, ASKER, "b.t");
  }
}
