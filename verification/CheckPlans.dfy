/** Check 10: what stops either plan, overlapping segments, attachments, and whether every wired tie can carry a packet. */
module CheckPlans {
  import opened Wrappers
  import opened Ir
  import opened Checks
  import Addressing
  import Groups
  import Routing

  type Net = Routing.Net
  type Routes = map<string, seq<Routing.Route>>

  datatype Finding =
    | OfAddresses(address: Addressing.Problem)
    | OfRoutes(route: Routing.Problem)
    | Overlapping(first: string, second: string)
    | NoKind(group: string, kind: string)
    | NoSegment(group: string, kind: string, segment: string)
    | OnManagement(group: string, kind: string, segment: string)
    | Unattached(group: string, kind: string)
    | Dead(group: string, key: string, source: string, target: string, pairs: nat)

  // ----- overlapping segments

  /** Two prefixes with an address in common. */
  predicate Overlap(m: Network, n: Network) {
    m.base < n.base + n.size && n.base < m.base + m.size
  }

  /** Both on the data plane, and their prefixes overlap. */
  predicate Clash(a: Segment, b: Segment) {
    a.plane == Data && b.plane == Data && a.cidr.Some? && b.cidr.Some? && Overlap(a.cidr.value, b.cidr.value)
  }

  /** What the first ``n`` later segments have in common with ``a``. */
  function OverlapsWith(a: Segment, later: seq<Segment>): seq<Finding> {
    if later == [] then []
    else
      OverlapsWith(a, later[..|later| - 1])
      + if Clash(a, later[|later| - 1]) then [Overlapping(a.name, later[|later| - 1].name)] else []
  }

  /** Every pair, the first's order first. */
  function Overlaps(segments: seq<Segment>, n: nat): seq<Finding>
    requires n <= |segments|
  {
    if n == 0 then [] else Overlaps(segments, n - 1) + OverlapsWith(segments[n - 1], segments[n..])
  }

  method FindOverlaps(segments: seq<Segment>) returns (found: seq<Finding>)
    ensures found == Overlaps(segments, |segments|)
  {
    found := [];
    for i := 0 to |segments|
      invariant found == Overlaps(segments, i)
    {
      ghost var was, later := found, segments[i + 1..];
      for j := i + 1 to |segments|
        invariant found == was + OverlapsWith(segments[i], later[..j - i - 1])
      {
        assert later[..j - i][..j - i - 1] == later[..j - i - 1] && later[j - i - 1] == segments[j];
        if Clash(segments[i], segments[j]) {
          found := found + [Overlapping(segments[i].name, segments[j].name)];
        }
      }
      assert later[..|later|] == later;
    }
  }

  lemma {:induction false} NoneWith(a: Segment, later: seq<Segment>, k: nat)
    requires OverlapsWith(a, later) == [] && k < |later|
    ensures !Clash(a, later[k])
  {
    if k < |later| - 1 {
      NoneWith(a, later[..|later| - 1], k);
    }
  }

  /** Nothing found means no two data segments overlap. */
  lemma {:induction false} NoOverlaps(segments: seq<Segment>, n: nat, i: nat, j: nat)
    requires n <= |segments| && Overlaps(segments, n) == [] && i < n && i < j < |segments|
    ensures !Clash(segments[i], segments[j])
  {
    if i < n - 1 {
      NoOverlaps(segments, n - 1, i, j);
    } else {
      assert segments[n..][j - n] == segments[j];
      NoneWith(segments[i], segments[n..], j - n);
    }
  }

  // ----- attachments

  /** ``{net.name: net.plane}``: a later segment of the same name replaces an earlier one. */
  function PlaneOf(segments: seq<Segment>, name: string): Option<Plane> {
    if segments == [] then None
    else if segments[|segments| - 1].name == name then Some(segments[|segments| - 1].plane)
    else PlaneOf(segments[..|segments| - 1], name)
  }

  function OfNetworks(t: Topology, path: string, kind: string, networks: seq<string>): seq<Finding> {
    if networks == [] then []
    else
      var last := networks[|networks| - 1];
      OfNetworks(t, path, kind, networks[..|networks| - 1])
      + match PlaneOf(t.segments, last)
        case None => [NoSegment(path, kind, last)]
        case Some(Management) => [OnManagement(path, kind, last)]
        case Some(Data) => []
  }

  function OfAttachments(s: Scenario, t: Topology, path: string, attachments: OrderedMap<string, seq<string>>): seq<Finding> {
    if attachments == [] then []
    else
      var last := attachments[|attachments| - 1];
      OfAttachments(s, t, path, attachments[..|attachments| - 1])
      + (if IsKind(s, last.0) then [] else [NoKind(path, last.0)])
      + OfNetworks(t, path, last.0, last.1)
  }

  /** Some segment named is on the data plane. */
  predicate JoinsData(t: Topology, networks: seq<string>) {
    exists k :: 0 <= k < |networks| && PlaneOf(t.segments, networks[k]) == Some(Data)
  }

  function NetworksOf(g: Group, kind: string): seq<string> {
    match Lookup(g.attachments, kind)
    case None => []
    case Some(networks) => networks
  }

  predicate Astray(s: Scenario, t: Topology, g: Group, kind: string, count: int) {
    IsKind(s, kind) && count > 0 && !JoinsData(t, NetworksOf(g, kind))
  }

  function OfInstances(s: Scenario, t: Topology, g: Group, instances: OrderedMap<string, int>): seq<Finding> {
    if instances == [] then []
    else
      var last := instances[|instances| - 1];
      OfInstances(s, t, g, instances[..|instances| - 1])
      + if Astray(s, t, g, last.0, last.1) then [Unattached(g.path, last.0)] else []
  }

  function OfGroups(s: Scenario, t: Topology, groups: seq<Group>): seq<Finding> {
    if groups == [] then []
    else
      var last := groups[|groups| - 1];
      OfGroups(s, t, groups[..|groups| - 1])
      + OfAttachments(s, t, last.path, last.attachments) + OfInstances(s, t, last, last.instances)
  }

  method CheckAttachments(s: Scenario, t: Topology) returns (found: seq<Finding>)
    ensures found == OfGroups(s, t, s.groups)
  {
    hide OfAttachments, OfInstances;
    found := [];
    for g := 0 to |s.groups|
      invariant found == OfGroups(s, t, s.groups[..g])
    {
      assert s.groups[..g + 1][..g] == s.groups[..g];
      var attached := CheckGroupAttachments(s, t, s.groups[g].path, s.groups[g].attachments);
      var held := CheckGroupInstances(s, t, s.groups[g]);
      found := found + attached + held;
    }
    assert s.groups[..|s.groups|] == s.groups;
  }

  method CheckGroupAttachments(s: Scenario, t: Topology, path: string, attachments: OrderedMap<string, seq<string>>)
    returns (found: seq<Finding>)
    ensures found == OfAttachments(s, t, path, attachments)
  {
    hide PlaneOf;
    found := [];
    for k := 0 to |attachments|
      invariant found == OfAttachments(s, t, path, attachments[..k])
    {
      assert attachments[..k + 1][..k] == attachments[..k];
      var (kind, networks) := attachments[k];
      if !IsKind(s, kind) {
        found := found + [NoKind(path, kind)];
      }
      ghost var was := found;
      for n := 0 to |networks|
        invariant found == was + OfNetworks(t, path, kind, networks[..n])
      {
        assert networks[..n + 1][..n] == networks[..n];
        var plane := PlaneOf(t.segments, networks[n]);
        if plane.None? {
          found := found + [NoSegment(path, kind, networks[n])];
        } else if plane.value != Data {
          found := found + [OnManagement(path, kind, networks[n])];
        }
      }
      assert networks[..|networks|] == networks;
    }
    assert attachments[..|attachments|] == attachments;
  }

  method CheckGroupInstances(s: Scenario, t: Topology, g: Group) returns (found: seq<Finding>)
    ensures found == OfInstances(s, t, g, g.instances)
  {
    hide Astray;
    found := [];
    for k := 0 to |g.instances|
      invariant found == OfInstances(s, t, g, g.instances[..k])
    {
      assert g.instances[..k + 1][..k] == g.instances[..k];
      if Astray(s, t, g, g.instances[k].0, g.instances[k].1) {
        found := found + [Unattached(g.path, g.instances[k].0)];
      }
    }
    assert g.instances[..|g.instances|] == g.instances;
  }

  lemma {:induction false} NoneAstray(s: Scenario, t: Topology, g: Group, instances: OrderedMap<string, int>, k: nat)
    requires OfInstances(s, t, g, instances) == [] && k < |instances|
    ensures !Astray(s, t, g, instances[k].0, instances[k].1)
  {
    hide Astray;
    if k < |instances| - 1 {
      NoneAstray(s, t, g, instances[..|instances| - 1], k);
    }
  }

  lemma {:induction false} CleanAttachments(s: Scenario, t: Topology, groups: seq<Group>, g: nat)
    requires OfGroups(s, t, groups) == [] && g < |groups|
    ensures OfInstances(s, t, groups[g], groups[g].instances) == []
  {
    hide OfAttachments, OfInstances;
    if g < |groups| - 1 {
      CleanAttachments(s, t, groups[..|groups| - 1], g);
    }
  }

  // ----- wired ties

  function DeadPairs(net: Net, routes: Routes, source: string, reached: seq<string>): seq<(string, string)> {
    if reached == [] then []
    else
      DeadPairs(net, routes, source, reached[..|reached| - 1])
      + if Routing.Reachable(net, routes, source, reached[|reached| - 1]) then [] else [(source, reached[|reached| - 1])]
  }

  function AllDead(net: Net, routes: Routes, sources: seq<string>, reached: seq<string>): seq<(string, string)> {
    if sources == [] then []
    else AllDead(net, routes, sources[..|sources| - 1], reached) + DeadPairs(net, routes, sources[|sources| - 1], reached)
  }

  /** ``held_by[(path, kind)]``: the instances of a kind in a group. */
  function HeldBy(instances: seq<Groups.Instance>, path: string, kind: string): seq<string> {
    if instances == [] then []
    else
      var i := instances[|instances| - 1];
      HeldBy(instances[..|instances| - 1], path, kind) + if i.group == path && i.kind == kind then [i.id] else []
  }

  function WireReach(s: Scenario, net: Net, routes: Routes, path: string, key: string): seq<Finding> {
    var (kind, tie) := AtDot(key);
    var sources, reached := HeldBy(Groups.InstanceIds(s), path, kind), TargetsOf(s, path, kind, tie);
    if sources == [] || reached.None? then []
    else
      var dead := AllDead(net, routes, sources, reached.value);
      if dead == [] then [] else [Dead(path, key, dead[0].0, dead[0].1, |dead|)]
  }

  function WiresReach(s: Scenario, net: Net, routes: Routes, path: string, wiring: OrderedMap<string, seq<string>>): seq<Finding> {
    if wiring == [] then []
    else
      WiresReach(s, net, routes, path, wiring[..|wiring| - 1]) + WireReach(s, net, routes, path, wiring[|wiring| - 1].0)
  }

  function GroupsReach(s: Scenario, net: Net, routes: Routes, groups: seq<Group>): seq<Finding> {
    if groups == [] then []
    else
      GroupsReach(s, net, routes, groups[..|groups| - 1])
      + WiresReach(s, net, routes, groups[|groups| - 1].path, groups[|groups| - 1].wiring)
  }

  ghost predicate IsHeldBy(instances: seq<Groups.Instance>, heldBy: map<(string, string), seq<string>>) {
    forall path, kind :: (if (path, kind) in heldBy then heldBy[(path, kind)] else []) == HeldBy(instances, path, kind)
  }

  /** The last part of check 10: whether each wired tie can carry a packet. */
  method CheckReach(s: Scenario, net: Net, routes: Routes) returns (found: seq<Finding>)
    ensures found == GroupsReach(s, net, routes, s.groups)
  {
    hide IsHeldBy, WiresReach, Groups.InstanceIds;
    var heldBy := IndexInstances(Groups.InstanceIds(s));
    found := [];
    for g := 0 to |s.groups|
      invariant found == GroupsReach(s, net, routes, s.groups[..g])
    {
      assert s.groups[..g + 1][..g] == s.groups[..g];
      var more := CheckGroupReach(s, net, routes, s.groups[g], heldBy);
      found := found + more;
    }
    assert s.groups[..|s.groups|] == s.groups;
  }

  method IndexInstances(instances: seq<Groups.Instance>) returns (heldBy: map<(string, string), seq<string>>)
    ensures IsHeldBy(instances, heldBy)
  {
    heldBy := map[];
    for n := 0 to |instances|
      invariant IsHeldBy(instances[..n], heldBy)
    {
      assert instances[..n + 1][..n] == instances[..n];
      var i := instances[n];
      heldBy := heldBy[(i.group, i.kind) := (if (i.group, i.kind) in heldBy then heldBy[(i.group, i.kind)] else []) + [i.id]];
    }
    assert instances[..|instances|] == instances;
  }

  method CheckGroupReach(s: Scenario, net: Net, routes: Routes, g: Group, heldBy: map<(string, string), seq<string>>)
    returns (found: seq<Finding>)
    requires IsHeldBy(Groups.InstanceIds(s), heldBy)
    ensures found == WiresReach(s, net, routes, g.path, g.wiring)
  {
    hide WireReach, IsHeldBy;
    found := [];
    for k := 0 to |g.wiring|
      invariant found == WiresReach(s, net, routes, g.path, g.wiring[..k])
    {
      assert g.wiring[..k + 1][..k] == g.wiring[..k];
      var more := CheckWireReach(s, net, routes, g.path, g.wiring[k].0, heldBy);
      found := found + more;
    }
    assert g.wiring[..|g.wiring|] == g.wiring;
  }

  method CheckWireReach(s: Scenario, net: Net, routes: Routes, path: string, key: string, heldBy: map<(string, string), seq<string>>)
    returns (found: seq<Finding>)
    requires IsHeldBy(Groups.InstanceIds(s), heldBy)
    ensures found == WireReach(s, net, routes, path, key)
  {
    hide TargetsOf, AtDot, HeldBy, AllDead;
    var (kind, tie) := AtDot(key);
    var sources := if (path, kind) in heldBy then heldBy[(path, kind)] else [];
    assert sources == HeldBy(Groups.InstanceIds(s), path, kind);
    var reached := Targets(s, path, kind, tie);
    found := [];
    if sources != [] && reached.Some? {
      var dead := FindDead(net, routes, sources, reached.value);
      if dead != [] {
        found := [Dead(path, key, dead[0].0, dead[0].1, |dead|)];
      }
    }
  }

  method FindDead(net: Net, routes: Routes, sources: seq<string>, reached: seq<string>) returns (dead: seq<(string, string)>)
    ensures dead == AllDead(net, routes, sources, reached)
  {
    dead := [];
    for i := 0 to |sources|
      invariant dead == AllDead(net, routes, sources[..i], reached)
    {
      assert sources[..i + 1][..i] == sources[..i];
      ghost var was := dead;
      for j := 0 to |reached|
        invariant dead == was + DeadPairs(net, routes, sources[i], reached[..j])
      {
        assert reached[..j + 1][..j] == reached[..j];
        if !Routing.Reachable(net, routes, sources[i], reached[j]) {
          dead := dead + [(sources[i], reached[j])];
        }
      }
      assert reached[..|reached|] == reached;
    }
    assert sources[..|sources|] == sources;
  }

  // ----- what no dead wire means

  lemma {:induction false} NoDead(net: Net, routes: Routes, sources: seq<string>, reached: seq<string>, source: string, target: string)
    requires AllDead(net, routes, sources, reached) == [] && source in sources && target in reached
    ensures Routing.Reachable(net, routes, source, target)
  {
    hide DeadPairs, Routing.Reachable;
    var n := |sources| - 1;
    if source in sources[..n] {
      NoDead(net, routes, sources[..n], reached, source, target);
    } else {
      NoDeadPair(net, routes, source, reached, target);
    }
  }

  lemma {:induction false} NoDeadPair(net: Net, routes: Routes, source: string, reached: seq<string>, target: string)
    requires DeadPairs(net, routes, source, reached) == [] && target in reached
    ensures Routing.Reachable(net, routes, source, target)
  {
    var n := |reached| - 1;
    if target in reached[..n] {
      NoDeadPair(net, routes, source, reached[..n], target);
    }
  }

  lemma {:induction false} HeldHas(instances: seq<Groups.Instance>, i: Groups.Instance)
    requires i in instances
    ensures i.id in HeldBy(instances, i.group, i.kind)
  {
    if i in instances[..|instances| - 1] {
      HeldHas(instances[..|instances| - 1], i);
    }
  }

  lemma {:induction false} CleanWireReach(s: Scenario, net: Net, routes: Routes, path: string,
        wiring: OrderedMap<string, seq<string>>, key: string)
    requires WiresReach(s, net, routes, path, wiring) == [] && Has(wiring, key)
    ensures WireReach(s, net, routes, path, key) == []
  {
    hide WireReach;
    var n := |wiring| - 1;
    var k :| 0 <= k < |wiring| && wiring[k].0 == key;
    if k < n {
      assert wiring[..n][k].0 == key;
      CleanWireReach(s, net, routes, path, wiring[..n], key);
    }
  }

  lemma {:induction false} CleanGroupReach(s: Scenario, net: Net, routes: Routes, groups: seq<Group>, g: nat)
    requires GroupsReach(s, net, routes, groups) == [] && g < |groups|
    ensures WiresReach(s, net, routes, groups[g].path, groups[g].wiring) == []
  {
    if g < |groups| - 1 {
      CleanGroupReach(s, net, routes, groups[..|groups| - 1], g);
    }
  }

  // ----- the whole check

  function AddressFindings(problems: seq<Addressing.Problem>): (r: seq<Finding>)
    ensures |r| == |problems|
  {
    seq(|problems|, k requires 0 <= k < |problems| => OfAddresses(problems[k]))
  }

  function RouteFindings(problems: seq<Routing.Problem>): (r: seq<Finding>)
    ensures |r| == |problems|
  {
    seq(|problems|, k requires 0 <= k < |problems| => OfRoutes(problems[k]))
  }

  /** Everything check 10 says, both plans being given. */
  function Findings(s: Scenario, t: Topology, net: Net, problems: seq<Addressing.Problem>, routes: Routes,
                    routeProblems: seq<Routing.Problem>): seq<Finding>
  {
    AddressFindings(problems) + RouteFindings(routeProblems)
    + Overlaps(t.segments, |t.segments|) + OfGroups(s, t, s.groups) + GroupsReach(s, net, routes, s.groups)
  }

  /** Check 10, without its remarks on egress. */
  method Check(s: Scenario, t: Topology)
    returns (plan: AddressPlan, problems: seq<Addressing.Problem>, routes: Routes, routeProblems: seq<Routing.Problem>,
             found: seq<Finding>)
    requires Groups.DistinctIds(s) && DistinctKeys(t.pins) && |t.segments| < Routing.FAR
    ensures Addressing.Planned(s, t, plan, problems)
    ensures var net := Routing.NetOf(s, t, plan);
            && Routing.WellFormed(net) && routes == Routing.Planned(net) && routeProblems == Routing.Problems(net, net.ids)
            && found == Findings(s, t, net, problems, routes, routeProblems)
  {
    hide Addressing.Planned, Routing.Planned, Routing.Problems, GroupsReach, OfGroups, Overlaps;
    ghost var pinned;
    plan, problems, pinned := Addressing.PlanAddresses(s, t);
    routes, routeProblems := Routing.PlanRoutes(s, t, plan);
    var overlaps := FindOverlaps(t.segments);
    var attachments := CheckAttachments(s, t);
    var reach := CheckReach(s, Routing.NetOf(s, t, plan), routes);
    found := AddressFindings(problems) + RouteFindings(routeProblems) + overlaps + attachments + reach;
  }
}
